/** The page agent (`ytm-rpc-userscript.js`): it reads the player bar of
    the page, turns it into a song snapshot, and hands the snapshot to the
    WebSocket when the title or the play state has changed since the last
    snapshot it kept. The page is given as the texts the DOM queries
    return; the clock is a parameter. */
module Userscript {
  import opened Wrappers
  import opened JsStrings
  import opened JsNumbers

  const Bullet: char := '\U{2022}'

  /** What the DOM queries of `getSongInfo` return. `None` stands for an
      element that is missing (`undefined` after `?.`). */
  datatype PageView = PageView(
    titleText: Option<string>,        // textContent of the title element
    bylineText: Option<string>,       // textContent of the byline element
    thumbnailSrc: Option<string>,     // src of the artwork image
    playButtonLabel: Option<string>,  // aria-label of the play/pause button, if both exist
    timeInfoText: Option<string>)     // textContent of the "current / total" element

  /** The object `getSongInfo` returns. `isPlaying` is `undefined` (None)
      when the play button or its label is missing; `duration` and
      `currentTime` are `null` (None) unless the time text had two parts,
      and may then be `NaN`. */
  datatype Snapshot = Snapshot(
    title: string,
    artist: string,
    album: Option<string>,
    thumbnail: Option<string>,
    isPlaying: Option<bool>,
    duration: Option<Number>,
    currentTime: Option<Number>,
    timestamp: int)

  /** What every snapshot `getSongInfo` returns satisfies. */
  predicate WellFormed(s: Snapshot) {
    && s.title != [] && IsTrimmed(s.title)
    && (s.currentTime.Some? <==> s.duration.Some?)
  }

  // ---------------------------------------------------------------- parseTime

  /** `parseTime`: split on `:`, read every part with `parseInt`, and
      combine two parts as minutes and seconds, three as hours, minutes
      and seconds. Any other number of parts gives 0. */
  function ParseTime(timeStr: string): Number {
    var parts := Split(timeStr, ':');
    if |parts| == 2 then
      Plus(Times(ParseInt(parts[0]), 60), ParseInt(parts[1]))
    else if |parts| == 3 then
      Plus(Plus(Times(ParseInt(parts[0]), 3600), Times(ParseInt(parts[1]), 60)), ParseInt(parts[2]))
    else
      Int(0)
  }

  /** With no colon, or more than two, the result is 0, not `NaN`. */
  lemma ParseTimeOtherCounts(timeStr: string)
    requires Count(timeStr, ':') != 1 && Count(timeStr, ':') != 2
    ensures ParseTime(timeStr) == Int(0)
  {
    SplitPieces(timeStr, ':');
  }

  /** A field of decimal digits alone reads as its decimal value. */
  lemma ParseDecimalField(d: string)
    requires IsDecimal(d)
    ensures ParseInt(d) == Int(DecimalValue(d))
  {
    ParseIntDecimal([], d, []);
    assert [] + d + [] == d;
  }

  /** A text without a colon, such as the empty one, reads as 0. */
  lemma ParseTimeNoColon(timeStr: string)
    requires ':' !in timeStr
    ensures ParseTime(timeStr) == Int(0)
  {
    SplitNone(timeStr, ':');
  }

  /** Two parts are minutes and seconds: `parts[0] * 60 + parts[1]`. */
  lemma ParseTimeTwoParts(t: string, m: string, s: string, a: int, b: int)
    requires Split(t, ':') == [m, s]
    requires ParseInt(m) == Int(a) && ParseInt(s) == Int(b)
    ensures ParseTime(t) == Int(a * 60 + b)
  {
  }

  /** Three parts are hours, minutes and seconds:
      `parts[0] * 3600 + parts[1] * 60 + parts[2]`. */
  lemma ParseTimeThreeParts(t: string, h: string, m: string, s: string, a: int, b: int, c: int)
    requires Split(t, ':') == [h, m, s]
    requires ParseInt(h) == Int(a) && ParseInt(m) == Int(b) && ParseInt(s) == Int(c)
    ensures ParseTime(t) == Int(a * 3600 + b * 60 + c)
  {
  }

  /** `M:SS` splits into its two fields. */
  lemma SplitTwoFields(m: string, s: string)
    requires ':' !in m && ':' !in s
    ensures Split(m + ":" + s, ':') == [m, s]
  {
    assert m + ":" + s == m + [':'] + s;
    SplitFirst(m, ':', s);
    SplitNone(s, ':');
  }

  /** `H:MM:SS` splits into its three fields. */
  lemma SplitThreeFields(h: string, m: string, s: string)
    requires ':' !in h && ':' !in m && ':' !in s
    ensures Split(h + ":" + m + ":" + s, ':') == [h, m, s]
  {
    SplitFirst(m, ':', s);
    SplitNone(s, ':');
    assert h + ":" + m + ":" + s == h + [':'] + (m + [':'] + s);
    SplitFirst(h, ':', m + [':'] + s);
  }

  /** "3:45" is 225 seconds. */
  lemma ParseTimeMinutesExample()
    ensures ParseTime("3:45") == Int(225)
  {
    MinutesExampleFields();
    SplitTwoFields("3", "45");
    ParseDecimalField("3");
    ParseDecimalField("45");
    ParseTimeTwoParts("3:45", "3", "45", 3, 45);
  }

  lemma MinutesExampleFields()
    ensures IsDecimal("3") && IsDecimal("45")
    ensures DecimalValue("3") == 3 && DecimalValue("45") == 45
    ensures "3" + ":" + "45" == "3:45"
  {
    assert "45"[..1] == "4";
  }

  /** "1:02:03" is 3723 seconds. */
  lemma ParseTimeHoursExample()
    ensures ParseTime("1:02:03") == Int(3723)
  {
    HoursExampleFields();
    SplitThreeFields("1", "02", "03");
    ParseDecimalField("1");
    ParseDecimalField("02");
    ParseDecimalField("03");
    ParseTimeThreeParts("1:02:03", "1", "02", "03", 1, 2, 3);
  }

  lemma HoursExampleFields()
    ensures IsDecimal("1") && IsDecimal("02") && IsDecimal("03")
    ensures DecimalValue("1") == 1 && DecimalValue("02") == 2 && DecimalValue("03") == 3
    ensures "1" + ":" + "02" + ":" + "03" == "1:02:03"
  {
    assert "02"[..1] == "0";
    assert "03"[..1] == "0";
  }

  /** The result is `NaN` exactly when the text has two or three parts
      and one of them reads as `NaN` under `parseInt`: no digit follows its
      leading white space and sign, or a `0x` has no hexadecimal digit
      after it. */
  lemma {:induction false} ParseTimeNaN(timeStr: string)
    ensures var parts := Split(timeStr, ':');
            ParseTime(timeStr).NaN? <==>
              && (|parts| == 2 || |parts| == 3)
              && exists k :: 0 <= k < |parts| && ParseInt(parts[k]).NaN?
  {
    var parts := Split(timeStr, ':');
    if |parts| == 2 || |parts| == 3 {
      if ParseTime(timeStr).NaN? {
        if |parts| == 2 {
          assert ParseInt(parts[0]).NaN? || ParseInt(parts[1]).NaN?;
        } else {
          assert ParseInt(parts[0]).NaN? || ParseInt(parts[1]).NaN? || ParseInt(parts[2]).NaN?;
        }
      }
    }
  }

  /** Every `:`-separated field is a plain run of decimal digits. */
  predicate DigitFields(timeStr: string) {
    forall k :: 0 <= k < |Split(timeStr, ':')| ==> IsDecimal(Split(timeStr, ':')[k])
  }

  /** With digit-only fields the result is a number, and never negative. */
  lemma {:induction false} ParseTimeNonNegative(timeStr: string)
    requires DigitFields(timeStr)
    ensures ParseTime(timeStr).Int? && ParseTime(timeStr).value >= 0
  {
    var parts := Split(timeStr, ':');
    forall k | 0 <= k < |parts|
      ensures ParseInt(parts[k]) == Int(DecimalValue(parts[k]))
    {
      ParseDecimalField(parts[k]);
    }
  }

  /** `m` is a number no greater than the number `n`. */
  predicate AtMost(m: Number, n: Number) {
    m.Int? && n.Int? && m.value <= n.value
  }

  /** On two parts, more minutes or more seconds never give fewer seconds. */
  lemma ParseTimeMonotone(t: string, m: string, s: string, t': string, m': string, s': string)
    requires Split(t, ':') == [m, s] && Split(t', ':') == [m', s']
    requires AtMost(ParseInt(m), ParseInt(m')) && AtMost(ParseInt(s), ParseInt(s'))
    ensures AtMost(ParseTime(t), ParseTime(t'))
  {
    ParseTimeTwoParts(t, m, s, ParseInt(m).value, ParseInt(s).value);
    ParseTimeTwoParts(t', m', s', ParseInt(m').value, ParseInt(s').value);
  }

  // ---------------------------------------------------------- getSongInfo parts

  /** `el?.textContent?.trim()`. */
  function TrimOpt(text: Option<string>): (r: Option<string>)
    ensures r.Some? <==> text.Some?
    ensures r.Some? ==> IsTrimOf(text.value, r.value)
  {
    match text
    case None => None
    case Some(t) => TrimCuts(t); Some(Trim(t))
  }

  datatype Byline = Byline(artist: string, album: Option<string>)

  /** Artist and album from the trimmed byline: split on the bullet when
      there is one, else the whole byline or "Unknown Artist". Searching
      for the one-character string is searching for the character
      (`JsStrings.IncludesChar`). */
  function ParseByline(artistInfo: Option<string>): (r: Byline)
    ensures artistInfo.Some? && Bullet in artistInfo.value ==>
              r.album.Some? && IsTrimmed(r.artist) && IsTrimmed(r.album.value)
    ensures !(artistInfo.Some? && Bullet in artistInfo.value) ==>
              r.album.None?
              && r.artist == if artistInfo.None? || artistInfo.value == [] then "Unknown Artist"
                             else artistInfo.value
  {
    var artist := if artistInfo.Some? && artistInfo.value != [] then artistInfo.value
                  else "Unknown Artist";
    if artistInfo.Some? && Bullet in artistInfo.value then
      var parts := Split(artistInfo.value, Bullet);
      TrimIsTrimmed(parts[0]);
      TrimIsTrimmed(parts[1]);
      Byline(Trim(parts[0]), Some(Trim(parts[1])))
    else
      Byline(artist, None)
  }

  /** With a bullet, the artist is the trimmed text before the first bullet
      and the album the trimmed text up to the next one; the rest is ignored. */
  lemma {:induction false} BylineSegments(x: string, y: string, rest: string)
    requires Bullet !in x && Bullet !in y
    requires rest == [] || rest[0] == Bullet
    ensures ParseByline(Some(x + [Bullet] + y + rest)) == Byline(Trim(x), Some(Trim(y)))
  {
    var b := x + [Bullet] + y + rest;
    assert b[|x|] == Bullet;
    assert b == x + [Bullet] + (y + rest);
    SplitFirst(x, Bullet, y + rest);
    if rest == [] {
      assert y + rest == y;
      SplitNone(y, Bullet);
    } else {
      assert y + rest == y + [Bullet] + rest[1..];
      SplitFirst(y, Bullet, rest[1..]);
    }
  }

  datatype TimeFields = TimeFields(currentTime: Option<Number>, duration: Option<Number>)

  /** `current / total`: both times are set exactly when the text exists
      and splits on `/` into two parts. */
  function ParseTimeInfo(timeInfo: Option<string>): (r: TimeFields)
    ensures r.currentTime.Some? <==> r.duration.Some?
  {
    if timeInfo.Some? then
      var times := Split(timeInfo.value, '/');
      if |times| == 2 then
        TimeFields(Some(ParseTime(Trim(times[0]))), Some(ParseTime(Trim(times[1]))))
      else
        TimeFields(None, None)
    else
      TimeFields(None, None)
  }

  /** Both times are set exactly when the text exists and holds exactly one slash. */
  lemma TimeInfoSetIffOneSlash(timeInfo: Option<string>)
    ensures ParseTimeInfo(timeInfo).currentTime.Some?
        <==> timeInfo.Some? && Count(timeInfo.value, '/') == 1
  {
    if timeInfo.Some? {
      SplitPieces(timeInfo.value, '/');
    }
  }

  /** The text before the slash is the current time and the text after it
      the duration, each trimmed and read by `parseTime`. */
  lemma {:induction false} TimeInfoHalves(x: string, y: string)
    requires '/' !in x && '/' !in y
    ensures ParseTimeInfo(Some(x + "/" + y))
         == TimeFields(Some(ParseTime(Trim(x))), Some(ParseTime(Trim(y))))
  {
    assert x + "/" + y == x + ['/'] + y;
    SplitFirst(x, '/', y);
    SplitNone(y, '/');
  }

  /** The player bar's "1:23 / 4:56". */
  lemma TimeInfoExample()
    ensures ParseTimeInfo(Some("1:23 / 4:56")) == TimeFields(Some(Int(83)), Some(Int(296)))
  {
    TimeInfoExampleHalves();
    TimeInfoHalves("1:23 ", " 4:56");
    TimeInfoExampleTimes();
  }

  lemma TimeInfoExampleHalves()
    ensures "1:23 / 4:56" == "1:23 " + "/" + " 4:56"
    ensures '/' !in "1:23 " && '/' !in " 4:56"
    ensures Trim("1:23 ") == "1:23" && Trim(" 4:56") == "4:56"
  {
    assert "1:23 " == [] + "1:23" + " ";
    TrimSurrounded([], "1:23", " ");
    assert " 4:56" == " " + "4:56" + [];
    TrimSurrounded(" ", "4:56", []);
  }

  lemma TimeInfoExampleTimes()
    ensures ParseTime("1:23") == Int(83) && ParseTime("4:56") == Int(296)
  {
    TimeInfoExampleFields();
    SplitTwoFields("1", "23");
    SplitTwoFields("4", "56");
    ParseDecimalField("1");
    ParseDecimalField("23");
    ParseDecimalField("4");
    ParseDecimalField("56");
    ParseTimeTwoParts("1:23", "1", "23", 1, 23);
    ParseTimeTwoParts("4:56", "4", "56", 4, 56);
  }

  lemma TimeInfoExampleFields()
    ensures IsDecimal("1") && IsDecimal("23") && IsDecimal("4") && IsDecimal("56")
    ensures DecimalValue("1") == 1 && DecimalValue("23") == 23
    ensures DecimalValue("4") == 4 && DecimalValue("56") == 56
    ensures "1" + ":" + "23" == "1:23" && "4" + ":" + "56" == "4:56"
  {
    assert "23"[..1] == "2";
    assert "56"[..1] == "5";
  }

  /** `src?.split('=')[0]`: the artwork URL up to its first `=`. */
  function StripSizeParameters(src: Option<string>): (r: Option<string>)
    ensures r.Some? <==> src.Some?
    ensures r.Some? ==> && r.value <= src.value && '=' !in r.value
                        && (|r.value| < |src.value| ==> src.value[|r.value|] == '=')
  {
    match src
    case None => None
    case Some(s) =>
      SplitHeadIsPrefix(s, '=');
      Some(Split(s, '=')[0])
  }

  /** `label?.includes('Pause')`: three-valued. */
  function IsPlayingFrom(ariaLabel: Option<string>): (r: Option<bool>)
    ensures r.Some? <==> ariaLabel.Some?
    ensures r == Some(true) <==> ariaLabel.Some? && Includes(ariaLabel.value, "Pause")
  {
    match ariaLabel
    case None => None
    case Some(l) => Some(Includes(l, "Pause"))
  }

  /** `getSongInfo`: no snapshot without a title; otherwise the title, the
      byline split, the artwork prefix, the play state and the times. */
  function GetSongInfo(page: PageView, now: int): (r: Option<Snapshot>)
    ensures r.None? <==> page.titleText.None? || Trim(page.titleText.value) == []
    ensures r.Some? ==>
              && WellFormed(r.value)
              && r.value.title == Trim(page.titleText.value)
              && Byline(r.value.artist, r.value.album) == ParseByline(TrimOpt(page.bylineText))
              && r.value.thumbnail == StripSizeParameters(page.thumbnailSrc)
              && r.value.isPlaying == IsPlayingFrom(page.playButtonLabel)
              && TimeFields(r.value.currentTime, r.value.duration) == ParseTimeInfo(page.timeInfoText)
              && r.value.timestamp == now
  {
    var title := TrimOpt(page.titleText);
    var byline := ParseByline(TrimOpt(page.bylineText));
    var times := ParseTimeInfo(page.timeInfoText);
    if title.None? || title.value == [] then None
    else
      TrimIsTrimmed(page.titleText.value);
      Some(Snapshot(title.value, byline.artist, byline.album,
                    StripSizeParameters(page.thumbnailSrc),
                    IsPlayingFrom(page.playButtonLabel),
                    times.duration, times.currentTime, now))
  }

  // --------------------------------------------------------- change detection

  /** The test in `checkForUpdates`: no previous snapshot, or a different
      title, or a different play state (`undefined` differs from `false`). */
  predicate DataChanged(last: Option<Snapshot>, songData: Snapshot) {
    || last.None?
    || last.value.title != songData.title
    || last.value.isPlaying != songData.isPlaying
  }

  /** What one poll does: the new `lastSongData`, and the snapshot handed
      to `sendSongData`, if any. */
  datatype PollResult = PollResult(last: Option<Snapshot>, attempted: Option<Snapshot>)

  /** One call of `checkForUpdates` on the snapshot `getSongInfo` gave. */
  function Poll(last: Option<Snapshot>, songData: Option<Snapshot>): (r: PollResult)
    ensures r.attempted.Some? <==> songData.Some? && DataChanged(last, songData.value)
    ensures r.attempted.Some? ==> r.attempted == songData && r.last == songData
    ensures r.attempted.None? ==> r.last == last
  {
    if songData.None? then PollResult(last, None)
    else if DataChanged(last, songData.value) then PollResult(songData, songData)
    else PollResult(last, None)
  }

  /** A snapshot that agrees with the kept one in title and play state
      changes nothing, whatever its artist, album, artwork or times. */
  lemma PollIgnoresOtherFields(kept: Snapshot, songData: Snapshot)
    requires songData.title == kept.title && songData.isPlaying == kept.isPlaying
    ensures Poll(Some(kept), Some(songData)) == PollResult(Some(kept), None)
  {
  }

  datatype PollRun = PollRun(last: Option<Snapshot>, attempts: seq<Snapshot>)

  /** Successive polls, as the interval timer makes them. */
  function Run(last: Option<Snapshot>, polls: seq<Option<Snapshot>>): PollRun {
    if polls == [] then PollRun(last, [])
    else
      var before := Run(last, polls[..|polls| - 1]);
      var step := Poll(before.last, polls[|polls| - 1]);
      PollRun(step.last, before.attempts + if step.attempted.Some? then [step.attempted.value] else [])
  }

  /** Over any run, `lastSongData` is the last snapshot sent (or what it
      was), and each snapshot sent differs from the one sent before it in
      title or play state. */
  lemma {:induction false} RunSendsOnlyChanges(last: Option<Snapshot>, polls: seq<Option<Snapshot>>)
    ensures var r := Run(last, polls);
            && (r.attempts == [] ==> r.last == last)
            && (r.attempts != [] ==> r.last == Some(r.attempts[|r.attempts| - 1])
                                     && DataChanged(last, r.attempts[0]))
            && forall i :: 0 < i < |r.attempts| ==> DataChanged(Some(r.attempts[i - 1]), r.attempts[i])
  {
    if polls != [] {
      RunSendsOnlyChanges(last, polls[..|polls| - 1]);
    }
  }

  /** Every snapshot sent is one of the polled ones, and there are never
      more sends than polls. */
  lemma {:induction false} RunSendsPolled(last: Option<Snapshot>, polls: seq<Option<Snapshot>>)
    ensures var r := Run(last, polls);
            |r.attempts| <= |polls| && forall a :: a in r.attempts ==> Some(a) in polls
  {
    if polls != [] {
      var init := polls[..|polls| - 1];
      RunSendsPolled(last, init);
      forall a | Some(a) in init ensures Some(a) in polls {
        var k :| 0 <= k < |init| && init[k] == Some(a);
        assert polls[k] == Some(a);
      }
    }
  }

  /** While title and play state stay those of the kept snapshot, no poll
      sends anything and the kept snapshot stays. */
  lemma {:induction false} RunSteady(kept: Snapshot, polls: seq<Option<Snapshot>>)
    requires forall k :: 0 <= k < |polls| && polls[k].Some? ==>
               polls[k].value.title == kept.title && polls[k].value.isPlaying == kept.isPlaying
    ensures Run(Some(kept), polls) == PollRun(Some(kept), [])
  {
    if polls != [] {
      RunSteady(kept, polls[..|polls| - 1]);
    }
  }

  // ------------------------------------------------------------- page agent

  /** `WebSocket.readyState`. */
  datatype ReadyState = Connecting | Open | Closing | Closed

  /** The script's two module variables: the socket `ws` (null until
      `connectWebSocket` runs) and `lastSongData`. */
  class PageAgent {
    var ws: Option<ReadyState>
    var lastSongData: Option<Snapshot>

    /** Only snapshots `getSongInfo` produced are ever kept. */
    ghost predicate Valid()
      reads this
    {
      lastSongData.Some? ==> WellFormed(lastSongData.value)
    }

    constructor ()
      ensures Valid() && ws == None && lastSongData == None
    {
      ws := None;
      lastSongData := None;
    }

    /** The socket `connectWebSocket` created has reached `state`, or the
        script replaced it. */
    method ObserveSocket(state: Option<ReadyState>)
      modifies this`ws
      ensures ws == state
    {
      ws := state;
    }

    /** `sendSongData`: the snapshot goes out only over an open socket; it
        is dropped silently otherwise. */
    method SendSongData(data: Snapshot) returns (sent: Option<Snapshot>)
      ensures sent.Some? <==> ws == Some(Open)
      ensures sent.Some? ==> sent.value == data
    {
      if ws.None? || ws.value != Open {
        return None;
      }
      sent := Some(data);
    }

    /** `checkForUpdates`: poll the page, and when the snapshot changed,
        try to send it and keep it, whether or not it went out. */
    method CheckForUpdates(page: PageView, now: int) returns (sent: Option<Snapshot>)
      requires Valid()
      modifies this`lastSongData
      ensures Valid()
      ensures var step := Poll(old(lastSongData), GetSongInfo(page, now));
              && lastSongData == step.last
              && sent == if ws == Some(Open) then step.attempted else None
      ensures sent.Some? ==> WellFormed(sent.value)
    {
      sent := None;
      var songData := GetSongInfo(page, now);
      if songData.None? {
        return;
      }
      var dataChanged := || lastSongData.None?
                         || lastSongData.value.title != songData.value.title
                         || lastSongData.value.isPlaying != songData.value.isPlaying;
      if dataChanged {
        sent := SendSongData(songData.value);
        lastSongData := songData;
      }
    }
  }
}
