/**
 * The configured stream records and the global settings of vlckickoff.go:
 * the walk that handles one posted stream (streamPostHandler), the copy of
 * the posted numeric settings (handleSettings) and the two bookkeeping
 * steps of the program-guide lookup (fillInPlayingTitles).
 */
module Streams {
  import opened Base

  /** One configured source (`stream` in vlckickoff.go). */
  datatype Stream = Stream(
    Name: string,
    Url: string,
    MythChanId: int,
    PlayingTitle: string,
    PlayingSubtitle: string,
    Active: bool)

  /** Every field of `settingsType` except `Streams`, which `Settings` holds apart. */
  datatype Config = Config(
    StaticFilesPath: string,
    ExternalHost: string,
    ListenHost: string,
    WebPort: int,
    StreamPort: int,
    VideoWidth: int,
    VideoHeight: int,
    VideoCodec: string,
    VideoBitrate: int,
    VideoQuality: int,
    AudioBitrate: int,
    CaptureCacheMs: int,
    AuthRealm: string,
    AuthUser: string,
    AuthPass: string,
    MythTVDSN: string)

  /** The zero `stream{}` that a settings POST sends as a "recompute" request. */
  const RecomputePost := Stream("", "", 0, "", "", false)

  /** A configured stream is the one a post names when name and URL both agree. */
  predicate SameIdentity(e: Stream, post: Stream) {
    e.Name == post.Name && e.Url == post.Url
  }

  // ---------------------------------------------------------------------------
  // Specification of the selector walk

  /** The record left in place of `e` once `post` has been handled. */
  function ApplyPost(e: Stream, post: Stream): (r: Stream) {
    if SameIdentity(e, post) then e.(Active := post.Active)
    else if post.Active then e.(Active := false)
    else e
  }

  /** The stream list after handling `post`: every record rewritten by `ApplyPost`, in place. */
  function Posted(ss: seq<Stream>, post: Stream): (r: seq<Stream>) {
    seq(|ss|, i requires 0 <= i < |ss| => ApplyPost(ss[i], post))
  }

  /** Index of the last active record, the one `activeStream` points to after the walk. */
  function LastActive(ss: seq<Stream>): (r: Option<nat>)
    ensures r.Some? ==> r.value < |ss| && ss[r.value].Active
    ensures r.Some? ==> forall j :: r.value < j < |ss| ==> !ss[j].Active
    ensures r.None? <==> forall j :: 0 <= j < |ss| ==> !ss[j].Active
  {
    if |ss| == 0 then None
    else if ss[|ss| - 1].Active then Some(|ss| - 1)
    else LastActive(ss[..|ss| - 1])
  }

  /** The URL sent to the supervisor: that of the last active record, or "" when none is active. */
  function DownstreamUrl(ss: seq<Stream>): (url: string) {
    match LastActive(ss)
    case Some(k) => ss[k].Url
    case None => ""
  }

  ghost predicate AtMostOneActive(ss: seq<Stream>) {
    forall i, j :: 0 <= i < |ss| && 0 <= j < |ss| && ss[i].Active && ss[j].Active ==> i == j
  }

  ghost predicate DistinctIdentities(ss: seq<Stream>) {
    forall i, j :: 0 <= i < |ss| && 0 <= j < |ss| && SameIdentity(ss[i], ss[j]) ==> i == j
  }

  /** Only the Active flags may differ between two stream lists. */
  ghost predicate SameButActive(ss: seq<Stream>, ts: seq<Stream>) {
    |ss| == |ts| && forall i :: 0 <= i < |ss| ==> ts[i] == ss[i].(Active := ts[i].Active)
  }

  // ---------------------------------------------------------------------------
  // Properties of the walk

  /** An active post leaves exactly the records it names active. */
  lemma ActivePostSelectsMatches(ss: seq<Stream>, post: Stream)
    requires post.Active
    ensures forall i :: 0 <= i < |ss| ==> (Posted(ss, post)[i].Active <==> SameIdentity(ss[i], post))
  {
  }

  /** An inactive post clears the records it names and leaves every other flag as it was. */
  lemma InactivePostClearsMatches(ss: seq<Stream>, post: Stream)
    requires !post.Active
    ensures forall i :: 0 <= i < |ss| && SameIdentity(ss[i], post) ==> !Posted(ss, post)[i].Active
    ensures forall i :: 0 <= i < |ss| && !SameIdentity(ss[i], post) ==> Posted(ss, post)[i] == ss[i]
  {
  }

  /** A post changes Active flags only: names, URLs, channel ids, titles, length and order stay. */
  lemma PostChangesOnlyActive(ss: seq<Stream>, post: Stream)
    ensures SameButActive(ss, Posted(ss, post))
  {
  }

  /**
   * With distinct (Name, Url) identities the walk keeps at most one stream active:
   * an active post leaves only its single match active, an inactive one never sets a flag.
   */
  lemma PostKeepsAtMostOne(ss: seq<Stream>, post: Stream)
    requires DistinctIdentities(ss)
    requires post.Active || AtMostOneActive(ss)
    ensures AtMostOneActive(Posted(ss, post))
  {
    var ts := Posted(ss, post);
    forall i, j | 0 <= i < |ts| && 0 <= j < |ts| && ts[i].Active && ts[j].Active
      ensures i == j
    {
      if post.Active {
        assert SameIdentity(ss[i], post) && SameIdentity(ss[j], post);
        assert SameIdentity(ss[i], ss[j]);
      } else {
        assert ss[i].Active && ss[j].Active;
      }
    }
  }

  /**
   * After an active post the supervisor is sent the posted URL when some record
   * matches it, and "" when none does (every record was forced inactive).
   */
  lemma ActivePostDownstream(ss: seq<Stream>, post: Stream)
    requires post.Active
    ensures (exists i :: 0 <= i < |ss| && SameIdentity(ss[i], post)) ==> DownstreamUrl(Posted(ss, post)) == post.Url
    ensures (forall i :: 0 <= i < |ss| ==> !SameIdentity(ss[i], post)) ==> DownstreamUrl(Posted(ss, post)) == ""
  {
    var ts := Posted(ss, post);
    if i :| 0 <= i < |ss| && SameIdentity(ss[i], post) {
      assert ts[i].Active;
      var k := LastActive(ts).value;
      assert SameIdentity(ss[k], post);
    }
  }

  /**
   * Deactivating a stream while at most one is active: the supervisor is sent ""
   * if the named stream was the active one and the previous URL otherwise.
   */
  lemma InactivePostDownstream(ss: seq<Stream>, post: Stream)
    requires !post.Active && AtMostOneActive(ss)
    ensures DownstreamUrl(Posted(ss, post)) ==
      match LastActive(ss)
      case Some(k) => if SameIdentity(ss[k], post) then "" else ss[k].Url
      case None => ""
  {
    var ts := Posted(ss, post);
    match LastActive(ss)
    case None =>
      assert forall j :: 0 <= j < |ts| ==> !ts[j].Active;
    case Some(k) =>
      if SameIdentity(ss[k], post) {
        forall j | 0 <= j < |ts| ensures !ts[j].Active {
          if j != k && ss[j].Active { assert false; }
        }
      } else {
        assert ts[k].Active;
        forall j | k < j < |ts| ensures !ts[j].Active { }
        assert LastActive(ts) == Some(k);
      }
  }

  /**
   * The recompute post sent after a settings change keeps the current URL
   * whenever that URL is not "": the last active stream cannot match the empty
   * identity, and an inactive post never turns a flag on.
   */
  lemma RecomputeKeepsDownstream(ss: seq<Stream>)
    requires DownstreamUrl(ss) != ""
    ensures DownstreamUrl(Posted(ss, RecomputePost)) == DownstreamUrl(ss)
  {
    var ts := Posted(ss, RecomputePost);
    var k := LastActive(ss).value;
    assert ts[k] == ss[k];
    forall j | k < j < |ts| ensures !ts[j].Active { }
    assert LastActive(ts) == Some(k);
  }

  // ---------------------------------------------------------------------------
  // Program-guide bookkeeping

  /** The non-zero channel ids of the streams, in stream order (the `chanIds` list). */
  function NonZeroChanIds(ss: seq<Stream>): (ids: seq<int>) {
    if |ss| == 0 then []
    else NonZeroChanIds(ss[..|ss| - 1]) + (if ss[|ss| - 1].MythChanId != 0 then [ss[|ss| - 1].MythChanId] else [])
  }

  /** The list holds exactly the non-zero ids that occur, never more entries than streams. */
  lemma {:induction false} NonZeroChanIdsExact(ss: seq<Stream>)
    ensures |NonZeroChanIds(ss)| <= |ss|
    ensures forall x :: x in NonZeroChanIds(ss) <==> x != 0 && exists i :: 0 <= i < |ss| && ss[i].MythChanId == x
  {
    if |ss| > 0 {
      var init := ss[..|ss| - 1];
      NonZeroChanIdsExact(init);
      forall x ensures x in NonZeroChanIds(ss) <==> x != 0 && exists i :: 0 <= i < |ss| && ss[i].MythChanId == x {
        if x != 0 && x !in NonZeroChanIds(ss) {
          forall i | 0 <= i < |ss| ensures ss[i].MythChanId != x {
            if i < |ss| - 1 { assert init[i] == ss[i]; }
          }
        }
        if x in NonZeroChanIds(init) {
          var i :| 0 <= i < |init| && init[i].MythChanId == x;
          assert ss[i].MythChanId == x;
        }
      }
    }
  }

  /** Collecting over two consecutive runs of streams concatenates their lists, so order is kept. */
  lemma {:induction false} NonZeroChanIdsAppend(a: seq<Stream>, b: seq<Stream>)
    ensures NonZeroChanIds(a + b) == NonZeroChanIds(a) + NonZeroChanIds(b)
  {
    if |b| > 0 {
      var b' := b[..|b| - 1];
      assert (a + b)[..|a + b| - 1] == a + b';
      NonZeroChanIdsAppend(a, b');
    } else {
      assert a + b == a;
    }
  }

  /** Index of the first stream carrying channel id `id`, the one a program row updates. */
  function FirstWithChanId(ss: seq<Stream>, id: int): (r: Option<nat>)
    ensures r.Some? ==> r.value < |ss| && ss[r.value].MythChanId == id
    ensures r.Some? ==> forall j :: 0 <= j < r.value ==> ss[j].MythChanId != id
    ensures r.None? <==> forall j :: 0 <= j < |ss| ==> ss[j].MythChanId != id
  {
    if |ss| == 0 then None
    else if ss[0].MythChanId == id then Some(0)
    else match FirstWithChanId(ss[1..], id)
      case Some(k) => Some(k + 1)
      case None => None
  }

  /** The stream list after applying one (chanid, title, subtitle) row of the program query. */
  function WithProgram(ss: seq<Stream>, id: int, title: string, subtitle: string): (r: seq<Stream>) {
    match FirstWithChanId(ss, id)
    case Some(k) => ss[k := ss[k].(PlayingTitle := title, PlayingSubtitle := subtitle)]
    case None => ss
  }

  /**
   * A program row sets the titles of the first stream with that channel id and of
   * no other; every other field, every other record, and so the selection, stay.
   */
  lemma ProgramRowKeepsSelection(ss: seq<Stream>, id: int, title: string, subtitle: string)
    ensures |WithProgram(ss, id, title, subtitle)| == |ss|
    ensures forall i :: 0 <= i < |ss| ==> WithProgram(ss, id, title, subtitle)[i].Active == ss[i].Active
    ensures forall i :: 0 <= i < |ss| && Some(i) != FirstWithChanId(ss, id) ==> WithProgram(ss, id, title, subtitle)[i] == ss[i]
    ensures forall i :: 0 <= i < |ss| && Some(i) == FirstWithChanId(ss, id) ==>
      WithProgram(ss, id, title, subtitle)[i] == ss[i].(PlayingTitle := title, PlayingSubtitle := subtitle)
    ensures DownstreamUrl(WithProgram(ss, id, title, subtitle)) == DownstreamUrl(ss)
  {
    var ts := WithProgram(ss, id, title, subtitle);
    match LastActive(ss)
    case None =>
    case Some(k) =>
      assert ts[k].Active && ts[k].Url == ss[k].Url;
      assert LastActive(ts) == Some(k);
  }

  // ---------------------------------------------------------------------------
  // The global settings record

  /** The global `settings` value: its scalar fields and its list of stream records. */
  class Settings {
    var config: Config
    var streams: seq<Stream>

    /** The settings as decoded from the configuration file at startup. */
    constructor (config: Config, streams: seq<Stream>)
      ensures this.config == config && this.streams == streams
    {
      this.config := config;
      this.streams := streams;
    }

    /**
     * One pass of streamPostHandler: rewrites each record as `ApplyPost` says and
     * returns the URL it sends downstream.
     */
    method PostStream(post: Stream) returns (url: string)
      modifies this
      ensures streams == Posted(old(streams), post)
      ensures config == old(config)
      ensures url == DownstreamUrl(streams)
    {
      var active: Option<nat> := None;
      var i := 0;
      while i < |streams|
        invariant 0 <= i <= |streams| == |old(streams)|
        invariant config == old(config)
        invariant forall k :: 0 <= k < i ==> streams[k] == ApplyPost(old(streams)[k], post)
        invariant forall k :: i <= k < |streams| ==> streams[k] == old(streams)[k]
        invariant active == LastActive(streams[..i])
      {
        var e := streams[i];
        if e.Name == post.Name && e.Url == post.Url {
          e := e.(Active := post.Active);
        } else if post.Active {
          e := e.(Active := false);
        }
        ghost var before := streams[..i];
        streams := streams[i := e];
        assert streams[..i + 1][..i] == before;
        if e.Active {
          active := Some(i);
        }
        i := i + 1;
      }
      assert streams[..i] == streams;
      if active.Some? {
        url := streams[active.value].Url;
      } else {
        url := "";
      }
    }

    /** The POST branch of handleSettings: copies the five numeric fields and nothing else. */
    method ApplySettingsPost(posted: Config)
      modifies this
      ensures config == old(config).(
        VideoWidth := posted.VideoWidth,
        VideoHeight := posted.VideoHeight,
        VideoBitrate := posted.VideoBitrate,
        AudioBitrate := posted.AudioBitrate,
        CaptureCacheMs := posted.CaptureCacheMs)
      ensures streams == old(streams)
    {
      config := config.(VideoWidth := posted.VideoWidth);
      config := config.(VideoHeight := posted.VideoHeight);
      config := config.(VideoBitrate := posted.VideoBitrate);
      config := config.(AudioBitrate := posted.AudioBitrate);
      config := config.(CaptureCacheMs := posted.CaptureCacheMs);
    }

    /** The `chanIds` append loop of fillInPlayingTitles. */
    method CollectChanIds() returns (ids: seq<int>)
      ensures ids == NonZeroChanIds(streams)
      ensures forall x :: x in ids <==> x != 0 && exists i :: 0 <= i < |streams| && streams[i].MythChanId == x
    {
      ids := [];
      var i := 0;
      while i < |streams|
        invariant 0 <= i <= |streams|
        invariant ids == NonZeroChanIds(streams[..i])
      {
        assert streams[..i + 1][..i] == streams[..i];
        if streams[i].MythChanId != 0 {
          ids := ids + [streams[i].MythChanId];
        }
        i := i + 1;
      }
      assert streams[..i] == streams;
      NonZeroChanIdsExact(streams);
    }

    /** The inner loop of fillInPlayingTitles for one scanned row: the first matching stream gets the titles. */
    method ApplyProgramRow(id: int, title: string, subtitle: string)
      modifies this
      ensures streams == WithProgram(old(streams), id, title, subtitle)
      ensures config == old(config)
    {
      var i := 0;
      while i < |streams|
        invariant 0 <= i <= |streams|
        invariant streams == old(streams)
        invariant forall k :: 0 <= k < i ==> streams[k].MythChanId != id
      {
        if streams[i].MythChanId == id {
          streams := streams[i := streams[i].(PlayingTitle := title, PlayingSubtitle := subtitle)];
          break;
        }
        i := i + 1;
      }
    }
  }
}
