/** The bridge (`bridge.js`): for every song record that arrives over the
    WebSocket it builds a Discord activity and asks the RPC client to show
    it, and it remembers the last activity the client accepted. The clock
    and the outcome of `setActivity` are parameters. */
module Bridge {
  import opened Wrappers

  /** The object `JSON.parse` gives for one message: a property that was
      `null` or left out of the message is `None`. Times are whole seconds,
      the timestamp milliseconds. */
  datatype SongRecord = SongRecord(
    title: string,
    artist: string,
    album: Option<string>,
    thumbnail: Option<string>,
    isPlaying: Option<bool>,
    duration: Option<int>,
    currentTime: Option<int>,
    timestamp: int)

  /** The activity object handed to `setActivity`; the two timestamps are
      properties that may be absent. */
  datatype Activity = Activity(
    details: string,
    state: string,
    instance: bool,
    largeImageKey: string,
    largeImageText: string,
    smallImageKey: string,
    smallImageText: string,
    startTimestamp: Option<int>,
    endTimestamp: Option<int>)

  // -------------------------------------------------------------- truthiness

  /** A string property is truthy when it is present and not empty. */
  predicate TruthyText(v: Option<string>) {
    v.Some? && v.value != []
  }

  /** A number property is truthy when it is present and not zero. */
  predicate TruthyNumber(v: Option<int>) {
    v.Some? && v.value != 0
  }

  /** `isPlaying` is truthy only when it is `true`. */
  predicate TruthyFlag(v: Option<bool>) {
    v == Some(true)
  }

  const FallbackImage := "ytmusic"
  const FallbackText := "YouTube Music"

  /** Whether the activity gets timestamps: playing, with a truthy duration
      and a truthy current time. */
  predicate ShowsProgress(song: SongRecord) {
    TruthyFlag(song.isPlaying) && TruthyNumber(song.duration) && TruthyNumber(song.currentTime)
  }

  // ---------------------------------------------------- activity construction

  /** The activity `updateDiscordPresence` builds for `song` when the clock
      reads `now` milliseconds. */
  function BuildActivity(song: SongRecord, now: int): (a: Activity)
    ensures a.details == song.title && a.state == "by " + song.artist && !a.instance
    ensures a.startTimestamp.Some? <==> ShowsProgress(song)
    ensures a.endTimestamp.Some? <==> ShowsProgress(song)
  {
    var large := if TruthyText(song.thumbnail) then song.thumbnail.value else FallbackImage;
    var largeText := if TruthyText(song.thumbnail) && TruthyText(song.album) then song.album.value
                     else FallbackText;
    var playing := TruthyFlag(song.isPlaying);
    var start := if ShowsProgress(song) then Some(now - song.currentTime.value * 1000) else None;
    var end := if ShowsProgress(song)
               then Some(now - song.currentTime.value * 1000 + song.duration.value * 1000)
               else None;
    Activity(song.title, "by " + song.artist, false, large, largeText,
             if playing then "play" else "pause",
             if playing then "Playing" else "Paused",
             start, end)
  }

  /** The large image is the artwork when there is one, with the album as
      its tooltip if that is non-empty; otherwise the uploaded asset. */
  lemma LargeImage(song: SongRecord, now: int)
    ensures var a := BuildActivity(song, now);
            && (TruthyText(song.thumbnail) ==>
                  && a.largeImageKey == song.thumbnail.value
                  && a.largeImageText == (if TruthyText(song.album) then song.album.value else FallbackText))
            && (!TruthyText(song.thumbnail) ==>
                  a.largeImageKey == FallbackImage && a.largeImageText == FallbackText)
  {
  }

  /** Neither image key nor either tooltip is ever empty. */
  lemma ImagesNeverEmpty(song: SongRecord, now: int)
    ensures var a := BuildActivity(song, now);
            && a.largeImageKey != [] && a.largeImageText != []
            && a.smallImageKey != [] && a.smallImageText != []
  {
  }

  /** The small image says play exactly when `isPlaying` is `true`. */
  lemma SmallImage(song: SongRecord, now: int)
    ensures var a := BuildActivity(song, now);
            && (TruthyFlag(song.isPlaying) ==> a.smallImageKey == "play" && a.smallImageText == "Playing")
            && (!TruthyFlag(song.isPlaying) ==> a.smallImageKey == "pause" && a.smallImageText == "Paused")
  {
  }

  /** With timestamps, the song started `currentTime` seconds before `now`
      and ends `duration` seconds after it started. */
  lemma Timestamps(song: SongRecord, now: int)
    requires ShowsProgress(song)
    ensures var a := BuildActivity(song, now);
            && a.startTimestamp == Some(now - song.currentTime.value * 1000)
            && a.endTimestamp == Some(a.startTimestamp.value + song.duration.value * 1000)
  {
  }

  /** What a Discord client shows from the timestamps: the time elapsed at
      `now` and the length of the song, both in milliseconds. */
  function Elapsed(a: Activity, now: int): Option<int> {
    if a.startTimestamp.Some? then Some(now - a.startTimestamp.value) else None
  }

  function Length(a: Activity): Option<int> {
    if a.startTimestamp.Some? && a.endTimestamp.Some?
    then Some(a.endTimestamp.value - a.startTimestamp.value) else None
  }

  /** Reading the timestamps back at the same `now` gives the current time
      and the duration the record carried. */
  lemma ProgressRoundTrip(song: SongRecord, now: int)
    requires ShowsProgress(song)
    ensures Elapsed(BuildActivity(song, now), now) == Some(song.currentTime.value * 1000)
    ensures Length(BuildActivity(song, now)) == Some(song.duration.value * 1000)
  {
    Timestamps(song, now);
  }

  /** Within the song, `now` lies between the start and the end. */
  lemma NowWithinSong(song: SongRecord, now: int)
    requires ShowsProgress(song)
    requires 0 <= song.currentTime.value <= song.duration.value
    ensures var a := BuildActivity(song, now);
            a.startTimestamp.value <= now <= a.endTimestamp.value
  {
    Timestamps(song, now);
  }

  /** Paused, or with a zero or missing time, the activity has no
      timestamps at all, whatever was shown before. */
  lemma NoProgressNoTimestamps(song: SongRecord, now: int)
    requires !TruthyFlag(song.isPlaying) || !TruthyNumber(song.duration) || !TruthyNumber(song.currentTime)
    ensures BuildActivity(song, now).startTimestamp.None?
    ensures BuildActivity(song, now).endTimestamp.None?
  {
  }

  /** The shape every built activity has: both timestamps or neither, and
      timestamps only beside the play indicator. */
  predicate Coherent(a: Activity) {
    && (a.startTimestamp.Some? <==> a.endTimestamp.Some?)
    && (a.startTimestamp.Some? ==> a.smallImageKey == "play")
    && a.largeImageKey != []
  }

  lemma BuildActivityCoherent(song: SongRecord, now: int)
    ensures Coherent(BuildActivity(song, now))
  {
    ImagesNeverEmpty(song, now);
  }

  // ------------------------------------------------------------- the bridge

  /** What `rpc.setActivity` did: it resolved, or it rejected. */
  datatype RpcOutcome = Succeeded | Failed

  /** The module variable `currentActivity` of the bridge. */
  class PresenceBridge {
    var currentActivity: Option<Activity>

    /** Only activities that were built from a record are ever kept. */
    ghost predicate Valid()
      reads this
    {
      currentActivity.Some? ==> Coherent(currentActivity.value)
    }

    constructor ()
      ensures Valid() && currentActivity == None
    {
      currentActivity := None;
    }

    /** `updateDiscordPresence`: nothing for a null record; otherwise build
        the activity field by field, ask for it, and keep it only if the
        request succeeded. `requested` is the activity handed to
        `setActivity`, if any. */
    method UpdateDiscordPresence(songData: Option<SongRecord>, now: int, outcome: RpcOutcome)
      returns (requested: Option<Activity>)
      requires Valid()
      modifies this
      ensures Valid()
      ensures requested == if songData.None? then None else Some(BuildActivity(songData.value, now))
      ensures currentActivity == if requested.Some? && outcome == Succeeded then requested
                                 else old(currentActivity)
    {
      requested := None;
      if songData.None? {
        return;
      }
      var song := songData.value;
      var largeImageKey, largeImageText;
      if TruthyText(song.thumbnail) {
        largeImageKey := song.thumbnail.value;
        largeImageText := if TruthyText(song.album) then song.album.value else FallbackText;
      } else {
        largeImageKey := FallbackImage;
        largeImageText := FallbackText;
      }
      var smallImageKey, smallImageText;
      if TruthyFlag(song.isPlaying) {
        smallImageKey, smallImageText := "play", "Playing";
      } else {
        smallImageKey, smallImageText := "pause", "Paused";
      }
      var startTimestamp: Option<int> := None;
      var endTimestamp: Option<int> := None;
      if TruthyFlag(song.isPlaying) && TruthyNumber(song.duration) && TruthyNumber(song.currentTime) {
        var elapsed := song.currentTime.value * 1000;
        var total := song.duration.value * 1000;
        startTimestamp := Some(now - elapsed);
        endTimestamp := Some(now - elapsed + total);
      }
      var activity := Activity(song.title, "by " + song.artist, false,
                               largeImageKey, largeImageText, smallImageKey, smallImageText,
                               startTimestamp, endTimestamp);
      requested := Some(activity);
      BuildActivityCoherent(song, now);
      if outcome == Succeeded {
        currentActivity := Some(activity);
      }
    }
  }
}
