/** The message between the two halves: what the bridge's `JSON.parse`
    gives back for a snapshot the page agent passed to `JSON.stringify`.
    Text and flags come through unchanged; `NaN` is written as `null`, and
    a property that is `undefined` is left out; the bridge sees both as
    absent. */
module Wire {
  import opened Wrappers
  import opened JsNumbers
  import opened JsStrings
  import opened Userscript
  import opened Bridge

  /** A number property after the round trip through JSON text. */
  function NumberOnWire(n: Option<Number>): (r: Option<int>)
    ensures r.Some? <==> n.Some? && n.value.Int?
    ensures r.Some? ==> r.value == n.value.value
  {
    match n
    case None => None
    case Some(NaN) => None
    case Some(Int(v)) => Some(v)
  }

  /** A snapshot time reads as a non-zero number of seconds. */
  predicate NonZeroTime(n: Option<Number>) {
    n.Some? && n.value.Int? && n.value.value != 0
  }

  /** The record the bridge receives for a snapshot. The bridge's
      truthiness test on it is, in the page's terms: playing, and both
      times read as non-zero numbers. */
  function Received(s: Snapshot): (r: SongRecord)
    ensures ShowsProgress(r)
            <==> s.isPlaying == Some(true) && NonZeroTime(s.currentTime) && NonZeroTime(s.duration)
  {
    SongRecord(s.title, s.artist, s.album, s.thumbnail, s.isPlaying,
               NumberOnWire(s.duration), NumberOnWire(s.currentTime), s.timestamp)
  }

  /** Read from the page to the presence: the activity is titled with the
      trimmed, non-empty title of the player bar, and it carries timestamps
      exactly when the play button's label says "Pause" and both times read
      as non-zero numbers. */
  lemma PresenceFromPage(page: PageView, pageNow: int, now: int)
    requires GetSongInfo(page, pageNow).Some?
    ensures var a := BuildActivity(Received(GetSongInfo(page, pageNow).value), now);
            var times := ParseTimeInfo(page.timeInfoText);
            && a.details == Trim(page.titleText.value) && a.details != []
            && (a.startTimestamp.Some?
                <==> && IsPlayingFrom(page.playButtonLabel) == Some(true)
                     && NonZeroTime(times.currentTime) && NonZeroTime(times.duration))
  {
  }

  /** A player bar whose time text has no single slash gives an activity
      without timestamps, playing or not. */
  lemma NoTimesNoTimestamps(page: PageView, pageNow: int, now: int)
    requires GetSongInfo(page, pageNow).Some?
    requires page.timeInfoText.None? || Count(page.timeInfoText.value, '/') != 1
    ensures BuildActivity(Received(GetSongInfo(page, pageNow).value), now).startTimestamp.None?
  {
    TimeInfoSetIffOneSlash(page.timeInfoText);
  }

  /** A time that did not read as a number reaches the bridge as absent,
      so it never produces a timestamp. */
  lemma NaNTimeNoTimestamps(s: Snapshot, now: int)
    requires s.currentTime == Some(NaN) || s.duration == Some(NaN)
    ensures BuildActivity(Received(s), now).startTimestamp.None?
  {
  }
}
