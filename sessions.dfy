/**
 * The per-chat conversation (`userStates`) and the two event handlers
 * that drive it: button presses (callback queries) and text messages.
 * The handlers update the sessions in place and, on the way, the
 * scheduled-posts file, the video catalog and the watermark setting.
 */
module Sessions {
  import opened Wrappers
  import opened Strings
  import opened Formatting
  import opened Dates
  import Jobs
  import Catalog
  import Dispatch

  // ---------------------------------------------------------------- sessions

  /** The `step` values the handlers set. */
  datatype Step =
    | WaitingUrl
    | WaitingText
    | WaitingPlatform
    | WaitingSharePlatform
    | WaitingScheduleDate
    | WaitingWatermark

  /** A `videoMap` entry written by the video list. */
  datatype ListedVideo = ListedVideo(name: string, path: string, platforms: seq<string>)

  /**
   * One chat's session. `source` is the session's `platform` field, the
   * site the video is downloaded from ("instagram" or "tiktok"); an absent
   * field is `None`.
   */
  datatype Session = Session(
    source: Option<string>,
    step: Option<Step>,
    videoUrl: Option<string>,
    processedVideo: Option<string>,
    videoText: Option<string>,
    schedulePlatform: Option<string>,
    videoMap: map<string, ListedVideo>)

  /** `{}`: a session without any field. */
  const NoFields := Session(None, None, None, None, None, None, map[])

  /** What the handlers rely on: a download step knows its source, the date step its platform. */
  predicate SessionValid(s: Session) {
    && ((s.step == Some(WaitingUrl) || s.step == Some(WaitingText)) ==> s.source.Some?)
    && (s.step == Some(WaitingScheduleDate) ==> s.schedulePlatform.Some?)
  }

  /** JavaScript truthiness of an optional string: present and not empty. */
  predicate Truthy(o: Option<string>) {
    o.Some? && o.value != ""
  }

  /** `videoText || "Short Video"`: the caption an immediate share uploads with. */
  function ShareCaption(videoText: Option<string>): (c: string)
    ensures c != ""
    ensures Truthy(videoText) ==> c == videoText.value
  {
    if Truthy(videoText) then videoText.value else "Short Video"
  }

  /** The sessions after the video list has shown the catalog to `chatId`. */
  function Listed(sessions: map<int, Session>, chatId: int, content: Catalog.CatalogContent): map<int, Session> {
    var loaded := Catalog.Loaded(content);
    if loaded.None? || loaded.value == map[] then sessions
    else
      var base := if chatId in sessions then sessions[chatId] else NoFields;
      sessions[chatId := base.(videoMap := base.videoMap + Entries(loaded.value, loaded.value.Keys))]
  }

  /** Listing the videos touches only the listing chat's session. */
  lemma ListedFrame(sessions: map<int, Session>, chatId: int, content: Catalog.CatalogContent)
    ensures Listed(sessions, chatId, content) - {chatId} == sessions - {chatId}
  {
  }

  /** The `videoMap` entries for the catalogued videos with ids in `ids`. */
  function Entries(m: map<string, Catalog.Video>, ids: set<string>): map<string, ListedVideo> {
    map id | id in ids && id in m :: ListedVideo(m[id].title, m[id].path, m[id].platforms)
  }

  /** Listing one more video adds its entry. */
  lemma EntriesStep(m: map<string, Catalog.Video>, ids: set<string>, id: string, listed: map<string, ListedVideo>)
    requires id in m
    ensures (listed + Entries(m, ids))[id := ListedVideo(m[id].title, m[id].path, m[id].platforms)] == listed + Entries(m, ids + {id})
  {
  }

  // ---------------------------------------------------------------- callback data

  predicate StartsWith(s: string, prefix: string) {
    |prefix| <= |s| && s[..|prefix|] == prefix
  }

  /** A text that differs from a prefix at one of the prefix's positions neither starts with it nor equals it. */
  lemma DiffersAt(s: string, prefix: string, i: nat)
    requires i < |s| && i < |prefix| && s[i] != prefix[i]
    ensures !StartsWith(s, prefix) && s != prefix
  {
  }

  /** The button presses the callback handler tells apart. */
  datatype Callback =
    | Settings | ShowMyId
    | Category(name: string) | Select(videoId: string) | CrossUpload
    | Manage(videoId: string) | Delete(videoId: string)
    | ShowVideos | ManageVideos | Source(source: string) | ReturnMainMenu
    | ClearMessages | ConfirmClearMessages
    | UploadChoice(platform: string) | ShareNow(platform: string) | Schedule(platform: string)
    | ScheduledPosts | ScheduledPost(postId: string) | CancelAllScheduled
    | EditWatermark | Ignored

  /** `data.split(":")[1]`. */
  function SecondPiece(data: string): string {
    var parts := Split(data, ':');
    if |parts| > 1 then parts[1] else ""
  }

  /**
   * The callback handler's chain of tests, in the handler's order; the
   * presses answered before the access check come first. The earlier
   * `cross_upload` test wins, so the upload-choice test never sees
   * `cross_upload`.
   */
  function ParseCallback(data: string): Callback {
    if data == "settings" then Settings
    else if data == "show_my_id" then ShowMyId
    else ParseVideoPress(data)
  }

  /** The video-list presses, tested first after the access check. */
  function ParseVideoPress(data: string): Callback {
    if StartsWith(data, "category:") then Category(data[9..])
    else if StartsWith(data, "select:") then Select(data[7..])
    else if data == "cross_upload" then CrossUpload
    else if StartsWith(data, "manage:") then Manage(data[7..])
    else if StartsWith(data, "delete:") then Delete(data[7..])
    else if data == "show_videos" then ShowVideos
    else if data == "manage_videos" then ManageVideos
    else ParseMenuPress(data)
  }

  /** The main-menu presses. */
  function ParseMenuPress(data: string): Callback {
    if data == "instagram" || data == "tiktok" then Source(data)
    else if data == "return_main_menu" then ReturnMainMenu
    else if data == "clear_messages" then ClearMessages
    else if data == "confirm_clear_messages" then ConfirmClearMessages
    else ParseSharePress(data)
  }

  /** The sharing, scheduling and settings presses. */
  function ParseSharePress(data: string): Callback {
    if data == "instagram_upload" || data == "youtube_upload" then UploadChoice(Split(data, '_')[0])
    else if StartsWith(data, "share_now:") then ShareNow(SecondPiece(data))
    else if StartsWith(data, "schedule:") then Schedule(SecondPiece(data))
    else if data == "scheduled_posts" then ScheduledPosts
    else if StartsWith(data, "scheduled:") then ScheduledPost(SecondPiece(data))
    else if data == "cancel_all_scheduled" then CancelAllScheduled
    else if data == "edit_watermark" then EditWatermark
    else Ignored
  }

  /** The presses answered before the access check. */
  predicate Exempt(cb: Callback) {
    cb.Settings? || cb.ShowMyId?
  }

  /** The second piece of `<tag>:<value>` is the value when the value holds no colon. */
  lemma SecondPieceOf(tag: string, value: string)
    requires ':' !in tag && ':' !in value
    ensures SecondPiece(tag + ":" + value) == value
  {
    assert tag + ":" + value == tag + [':'] + value;
    SplitAtSeparator(tag, ':', value);
    SplitWithoutSeparator(value, ':');
  }

  /** `select:<id>`, the data of a video-list button, decodes to that video's selection. */
  lemma SelectDataDecodes(videoId: string)
    ensures ParseCallback("select:" + videoId) == Select(videoId)
  {
    var s := "select:" + videoId;
    assert s[..7] == "select:" && s[7..] == videoId;
    assert s[0] == 's' && s[1] == 'e' && s[2] == 'l';
    assert s != "settings" && s != "show_my_id" && !StartsWith(s, "category:");
  }

  /** `manage:<id>`, the data of a management-list button, decodes to that video's management. */
  lemma ManageDataDecodes(videoId: string)
    ensures ParseCallback("manage:" + videoId) == Manage(videoId)
  {
    var m := "manage:" + videoId;
    assert m[..7] == "manage:" && m[7..] == videoId && m[0] == 'm';
    assert m != "settings" && m != "show_my_id" && m != "cross_upload";
    assert !StartsWith(m, "category:") && !StartsWith(m, "select:");
  }

  /** `delete:<id>`, the data of the confirmation button, decodes to that video's deletion. */
  lemma DeleteDataDecodes(videoId: string)
    ensures ParseCallback("delete:" + videoId) == Delete(videoId)
  {
    var d := "delete:" + videoId;
    assert d[..7] == "delete:" && d[7..] == videoId && d[0] == 'd';
    assert d != "settings" && d != "show_my_id" && d != "cross_upload";
    assert !StartsWith(d, "category:") && !StartsWith(d, "select:") && !StartsWith(d, "manage:");
  }

  /** `share_now:<platform>` decodes to an immediate share on that platform. */
  lemma ShareNowDataDecodes(platform: string)
    requires ':' !in platform
    ensures ParseCallback("share_now:" + platform) == ShareNow(platform)
  {
    var n := "share_now:" + platform;
    assert n[..10] == "share_now:" && n[0] == 's' && n[1] == 'h' && n[2] == 'a';
    PastVideoPresses(n);
    PastMenuPresses(n);
    SecondPieceOf("share_now", platform);
    assert "share_now" + ":" + platform == n;
  }

  /** `schedule:<platform>` decodes to scheduling on that platform. */
  lemma ScheduleDataDecodes(platform: string)
    requires ':' !in platform
    ensures ParseCallback("schedule:" + platform) == Schedule(platform)
  {
    var c := "schedule:" + platform;
    assert c[..9] == "schedule:" && c[0] == 's' && c[1] == 'c' && c[2] == 'h';
    PastVideoPresses(c);
    PastMenuPresses(c);
    DiffersAt(c, "share_now:", 1);
    SecondPieceOf("schedule", platform);
    assert "schedule" + ":" + platform == c;
  }

  /** Data starting with `s` but not `se` or `sho` is none of the presses before the main-menu ones. */
  lemma PastVideoPresses(data: string)
    requires |data| >= 3 && data[0] == 's' && data[1] != 'e' && !(data[1] == 'h' && data[2] == 'o')
    ensures ParseCallback(data) == ParseMenuPress(data)
  {
    DiffersAt(data, "settings", 1);
    if data[1] == 'h' {
      DiffersAt(data, "show_my_id", 2);
      DiffersAt(data, "show_videos", 2);
    } else {
      DiffersAt(data, "show_my_id", 1);
      DiffersAt(data, "show_videos", 1);
    }
    DiffersAt(data, "category:", 0);
    DiffersAt(data, "select:", 1);
    DiffersAt(data, "cross_upload", 0);
    DiffersAt(data, "manage:", 0);
    DiffersAt(data, "delete:", 0);
    DiffersAt(data, "manage_videos", 0);
  }

  /** Data starting with `s` is none of the main-menu presses. */
  lemma PastMenuPresses(data: string)
    requires |data| >= 1 && data[0] == 's'
    ensures ParseMenuPress(data) == ParseSharePress(data)
    ensures data != "instagram_upload" && data != "youtube_upload"
  {
    DiffersAt(data, "instagram", 0);
    DiffersAt(data, "tiktok", 0);
    DiffersAt(data, "return_main_menu", 0);
    DiffersAt(data, "clear_messages", 0);
    DiffersAt(data, "confirm_clear_messages", 0);
    DiffersAt(data, "instagram_upload", 0);
    DiffersAt(data, "youtube_upload", 0);
  }

  // ---------------------------------------------------------------- schedule date

  /** What the schedule-date handler decides from the text and the clock, before it reads the file. */
  datatype DateCheck =
    | Unparsable          // no text, or no space: a TypeError before any Date is built
    | Invalid             // a NaN field or an out-of-range instant: an Invalid Date, which is not in the past
    | Past                // not after the current instant
    | Future(when: int)

  /**
   * The check of the operator's text at instant `now`; `toTime` is the
   * local-time conversion the Date setters perform, `None` when they give
   * an Invalid Date (a time value beyond the range `Date` can hold).
   */
  function CheckDate(text: Option<string>, now: int, toTime: DateFields -> Option<int>): (r: DateCheck)
    ensures r.Future? ==> now < r.when
    ensures r.Past? || r.Future? ==> text.Some? && ParseScheduleDate(text.value).Calendar?
    ensures r.Future? ==> toTime(ParseScheduleDate(text.value).fields) == Some(r.when)
    ensures r.Past? ==> var t := toTime(ParseScheduleDate(text.value).fields); t.Some? && t.value <= now
  {
    if text.None? then Unparsable
    else match ParseScheduleDate(text.value)
      case MissingTime => Unparsable
      case NotANumber => Invalid
      case Calendar(f) =>
        match toTime(f)
        case None => Invalid
        case Some(t) => if t <= now then Past else Future(t)
  }

  /**
   * A date printed by `formatDate` is accepted exactly when its minute is
   * an instant after `now`, and takes the invalid path when it is none.
   */
  lemma FormattedDateChecked(f: DateFields, now: int, toTime: DateFields -> Option<int>)
    requires IsCalendarTime(f)
    ensures var minute := toTime(f.(seconds := 0, millis := 0));
      CheckDate(Some(FormatDate(f)), now, toTime)
        == (if minute.None? then Invalid else if minute.value <= now then Past else Future(minute.value))
  {
    FormatThenParse(f);
  }

  /** The reply to a schedule-date message. */
  datatype ScheduleReply = InvalidFormat | PastDate | Scheduled(when: int)

  // ---------------------------------------------------------------- outside world

  /** The outcomes of the acquisition step, which is outside the model. */
  datatype Processing = Processing(downloaded: bool, composited: bool, copied: bool, cleaned: bool)

  /**
   * Whether the caption step files the video in the catalog: a text was
   * sent, the download, the compositing and the copy succeeded, and the
   * catalog file has a `videos` object.
   */
  predicate Saves(text: Option<string>, work: Processing, content: Catalog.CatalogContent) {
    text.Some? && work.downloaded && work.composited && work.copied && !content.NoVideos?
  }

  /** Everything a handler obtains from outside the model: the clock, upload and file outcomes. */
  datatype Outside = Outside(
    now: int, stamp1: nat, stamp2: nat, createdAt: int,
    work: Processing, reelsOk: bool, shortsOk: bool, unlinked: bool)

  /** The bot's settings (`config.bot`). */
  class Config {
    var watermark: string
    var allowedUsers: seq<int>

    constructor(watermark: string, allowedUsers: seq<int>)
      ensures this.watermark == watermark && this.allowedUsers == allowedUsers
    {
      this.watermark := watermark;
      this.allowedUsers := allowedUsers;
    }
  }

  // ---------------------------------------------------------------- the bot

  class Bot {
    var sessions: map<int, Session>
    const config: Config
    const jobs: Jobs.JobFile
    const catalog: Catalog.VideoCatalog

    predicate Valid()
      reads this
    {
      forall c :: c in sessions ==> SessionValid(sessions[c])
    }

    constructor(config: Config, jobs: Jobs.JobFile, catalog: Catalog.VideoCatalog)
      ensures sessions == map[] && Valid()
      ensures this.config == config && this.jobs == jobs && this.catalog == catalog
    {
      sessions := map[];
      this.config := config;
      this.jobs := jobs;
      this.catalog := catalog;
    }

    // ------------------------------------------------------------ button presses

    /** `instagram` / `tiktok`: a new session waiting for the video URL. */
    method PickSource(chatId: int, source: string)
      requires Valid()
      modifies this
      ensures Valid()
      ensures sessions == old(sessions)[chatId := NoFields.(source := Some(source), step := Some(WaitingUrl))]
    {
      sessions := sessions[chatId := NoFields.(source := Some(source), step := Some(WaitingUrl))];
    }

    /** `return_main_menu`: the session is dropped. */
    method ReturnToMenu(chatId: int)
      requires Valid()
      modifies this
      ensures Valid()
      ensures sessions == old(sessions) - {chatId}
    {
      sessions := sessions - {chatId};
    }

    /** `edit_watermark`: a new session waiting for the watermark text. */
    method EditWatermark(chatId: int)
      requires Valid()
      modifies this
      ensures Valid()
      ensures sessions == old(sessions)[chatId := NoFields.(step := Some(WaitingWatermark))]
    {
      sessions := sessions[chatId := NoFields.(step := Some(WaitingWatermark))];
    }

    /**
     * `select:<id>`: a listed video becomes the session's processed video,
     * with the caption recovered from its title; the other fields are kept.
     * An id the session has not listed changes nothing.
     */
    method SelectVideo(chatId: int, videoId: string)
      requires Valid()
      modifies this
      ensures Valid()
      ensures chatId in old(sessions) && videoId in old(sessions)[chatId].videoMap ==>
        var s := old(sessions)[chatId];
        var e := s.videoMap[videoId];
        sessions == old(sessions)[chatId := s.(processedVideo := Some(e.path), videoText := Some(RecoverCaption(e.name)), step := Some(WaitingSharePlatform))]
      ensures !(chatId in old(sessions) && videoId in old(sessions)[chatId].videoMap) ==> sessions == old(sessions)
    {
      if chatId in sessions && videoId in sessions[chatId].videoMap {
        var s := sessions[chatId];
        var e := s.videoMap[videoId];
        sessions := sessions[chatId := s.(processedVideo := Some(e.path), videoText := Some(RecoverCaption(e.name)), step := Some(WaitingSharePlatform))];
      }
    }

    /**
     * `schedule:<platform>`: the session waits for a date for that platform.
     * Without a session the handler throws and nothing changes.
     */
    method ScheduleFor(chatId: int, platform: string)
      requires Valid()
      modifies this
      ensures Valid()
      ensures chatId in old(sessions) ==>
        sessions == old(sessions)[chatId := old(sessions)[chatId].(schedulePlatform := Some(platform), step := Some(WaitingScheduleDate))]
      ensures chatId !in old(sessions) ==> sessions == old(sessions)
    {
      if chatId in sessions {
        sessions := sessions[chatId := sessions[chatId].(schedulePlatform := Some(platform), step := Some(WaitingScheduleDate))];
      }
    }

    /**
     * `share_now:<platform>`: with a processed video the uploads run on it,
     * captioned with the session's text or `Short Video` when there is none,
     * and the session is dropped whatever they give; otherwise nothing happens.
     */
    method ShareNowPressed(chatId: int, platform: string, reelsOk: bool, shortsOk: bool) returns (run: Option<Dispatch.ShareRun>)
      requires Valid()
      modifies this
      ensures Valid()
      ensures chatId in old(sessions) && Truthy(old(sessions)[chatId].processedVideo) ==>
        var s := old(sessions)[chatId];
        && run == Some(Dispatch.ShareNow(platform, s.processedVideo.value, ShareCaption(s.videoText), reelsOk, shortsOk))
        && sessions == old(sessions) - {chatId}
      ensures !(chatId in old(sessions) && Truthy(old(sessions)[chatId].processedVideo)) ==>
        run == None && sessions == old(sessions)
    {
      if chatId in sessions && Truthy(sessions[chatId].processedVideo) {
        var s := sessions[chatId];
        run := Some(Dispatch.ShareNow(platform, s.processedVideo.value, ShareCaption(s.videoText), reelsOk, shortsOk));
        sessions := sessions - {chatId};
      } else {
        run := None;
      }
    }

    /**
     * The video list: every catalogued video is entered in the session's
     * `videoMap` under its id (a session is created when there is none);
     * an empty or unreadable catalog changes nothing.
     */
    method ListVideos(chatId: int)
      requires Valid()
      modifies this
      ensures Valid()
      ensures sessions == Listed(old(sessions), chatId, catalog.content)
    {
      var loaded := Catalog.Loaded(catalog.content);
      if loaded.None? || loaded.value == map[] {
        return;
      }
      var m := loaded.value;
      ghost var base := if chatId in sessions then sessions[chatId] else NoFields;
      var remaining := m.Keys;
      ghost var done: set<string> := {};
      while remaining != {}
        invariant remaining <= m.Keys && done == m.Keys - remaining
        invariant Valid()
        invariant done == {} ==> sessions == old(sessions)
        invariant done != {} ==> sessions == old(sessions)[chatId := base.(videoMap := base.videoMap + Entries(m, done))]
        decreases remaining
      {
        var id :| id in remaining;
        if chatId !in sessions {
          sessions := sessions[chatId := NoFields];
        }
        var s := sessions[chatId];
        EntriesStep(m, done, id, base.videoMap);
        if done == {} {
          assert s == base;
          assert Entries(m, done) == map[];
          assert base.videoMap + Entries(m, done) == base.videoMap;
        }
        sessions := sessions[chatId := s.(videoMap := s.videoMap[id := ListedVideo(m[id].title, m[id].path, m[id].platforms)])];
        remaining := remaining - {id};
        done := done + {id};
      }
      assert done == m.Keys;
    }

    /**
     * `delete:<id>`: the video file is unlinked (`unlinked` says whether
     * that succeeded) and on success the list is shown again; the catalog
     * entry stays.
     */
    method DeleteVideo(chatId: int, videoId: string, unlinked: bool)
      requires Valid()
      modifies this
      ensures Valid()
      ensures chatId in old(sessions) && videoId in old(sessions)[chatId].videoMap && unlinked ==>
        sessions == Listed(old(sessions), chatId, catalog.content)
      ensures !(chatId in old(sessions) && videoId in old(sessions)[chatId].videoMap && unlinked) ==>
        sessions == old(sessions)
    {
      if chatId in sessions && videoId in sessions[chatId].videoMap && unlinked {
        ListVideos(chatId);
      }
    }

    /**
     * The transition an admitted press makes, by its kind: the video list is
     * shown, a listed video selected or its file deleted, a source picked,
     * the session ended, shared, scheduled or turned to the watermark; the
     * remaining presses only send messages. Only a share reports a run.
     */
    twostate predicate Pressed(chatId: int, cb: Callback, env: Outside, new run: Option<Dispatch.ShareRun>)
      reads this, catalog
    {
      match cb
      case Category(_) => run == None && sessions == Listed(old(sessions), chatId, catalog.content)
      case ShowVideos => run == None && sessions == Listed(old(sessions), chatId, catalog.content)
      case ManageVideos => run == None && sessions == Listed(old(sessions), chatId, catalog.content)
      case Select(videoId) =>
        && run == None
        && if chatId in old(sessions) && videoId in old(sessions)[chatId].videoMap then
             var s := old(sessions)[chatId];
             var e := s.videoMap[videoId];
             sessions == old(sessions)[chatId := s.(processedVideo := Some(e.path), videoText := Some(RecoverCaption(e.name)), step := Some(WaitingSharePlatform))]
           else sessions == old(sessions)
      case Delete(videoId) =>
        && run == None
        && if chatId in old(sessions) && videoId in old(sessions)[chatId].videoMap && env.unlinked then
             sessions == Listed(old(sessions), chatId, catalog.content)
           else sessions == old(sessions)
      case Source(source) =>
        run == None && sessions == old(sessions)[chatId := NoFields.(source := Some(source), step := Some(WaitingUrl))]
      case ReturnMainMenu => run == None && sessions == old(sessions) - {chatId}
      case ShareNow(platform) =>
        if chatId in old(sessions) && Truthy(old(sessions)[chatId].processedVideo) then
          var s := old(sessions)[chatId];
          && run == Some(Dispatch.ShareNow(platform, s.processedVideo.value, ShareCaption(s.videoText), env.reelsOk, env.shortsOk))
          && sessions == old(sessions) - {chatId}
        else sessions == old(sessions) && run == None
      case Schedule(platform) =>
        && run == None
        && if chatId in old(sessions) then
             sessions == old(sessions)[chatId := old(sessions)[chatId].(schedulePlatform := Some(platform), step := Some(WaitingScheduleDate))]
           else sessions == old(sessions)
      case EditWatermark => run == None && sessions == old(sessions)[chatId := NoFields.(step := Some(WaitingWatermark))]
      case Settings => run == None && sessions == old(sessions)
      case ShowMyId => run == None && sessions == old(sessions)
      case _ => run == None && sessions == old(sessions)
    }

    /**
     * The callback handler: settings and the id lookup for everyone, every
     * other press only for allowed chats; only the pressing chat's session
     * can change.
     */
    method OnCallback(chatId: int, data: string, env: Outside) returns (run: Option<Dispatch.ShareRun>)
      requires Valid()
      modifies this
      ensures Valid()
      ensures sessions - {chatId} == old(sessions) - {chatId}
      ensures run.Some? ==> ParseCallback(data).ShareNow?
      // settings and the id lookup answer everyone and change nothing
      ensures Exempt(ParseCallback(data)) ==> sessions == old(sessions) && run == None
      // a non-empty allow list refuses every other press from a chat it does not list
      ensures |config.allowedUsers| > 0 && chatId !in config.allowedUsers ==> sessions == old(sessions) && run == None
      // an admitted press makes the transition of its kind
      ensures !Exempt(ParseCallback(data)) && IsUserAllowed(chatId, config.allowedUsers) ==>
        Pressed(chatId, ParseCallback(data), env, run)
    {
      var cb := ParseCallback(data);
      if Exempt(cb) || !IsUserAllowed(chatId, config.allowedUsers) {
        return None;
      }
      run := Press(chatId, cb, env);
    }

    /** The transition an admitted press makes, by its kind. */
    method Press(chatId: int, cb: Callback, env: Outside) returns (run: Option<Dispatch.ShareRun>)
      requires Valid() && !Exempt(cb)
      modifies this
      ensures Valid()
      ensures sessions - {chatId} == old(sessions) - {chatId}
      ensures Pressed(chatId, cb, env, run)
    {
      run := None;
      ListedFrame(sessions, chatId, catalog.content);
      match cb {
        case Category(_) => ListVideos(chatId);
        case ShowVideos => ListVideos(chatId);
        case ManageVideos => ListVideos(chatId);
        case Select(id) => SelectVideo(chatId, id);
        case Delete(id) => DeleteVideo(chatId, id, env.unlinked);
        case Source(source) => PickSource(chatId, source);
        case ReturnMainMenu => ReturnToMenu(chatId);
        case ShareNow(platform) => run := ShareNowPressed(chatId, platform, env.reelsOk, env.shortsOk);
        case Schedule(platform) => ScheduleFor(chatId, platform);
        case EditWatermark => EditWatermark(chatId);
        case _ =>
      }
    }

    // ------------------------------------------------------------ messages

    /** `waiting_url`: the text is stored as the video URL and the session waits for the caption. */
    twostate predicate UrlSubmitted(chatId: int, text: Option<string>)
      reads this
    {
      && chatId in old(sessions)
      && sessions == old(sessions)[chatId := old(sessions)[chatId].(videoUrl := text, step := Some(WaitingText))]
    }

    /**
     * `waiting_text`: when `Saves` holds the video is filed in the catalog as
     * `masked_<source>_<slug>_<stamp>.mp4` under `vid_<stamp>`, titled with
     * the caption, and otherwise the catalog is unchanged; when, besides,
     * the temporary files were removed, the session is replaced by one
     * offering the platforms, and otherwise it is dropped.
     */
    twostate predicate CaptionProcessed(chatId: int, text: Option<string>, work: Processing, fileStamp: nat, videoStamp: nat, createdAt: int)
      reads this, catalog
    {
      && chatId in old(sessions) && old(sessions)[chatId].source.Some?
      && (Saves(text, work, old(catalog.content)) ==>
            var fileName := MaskedFileName(old(sessions)[chatId].source.value, text.value, fileStamp);
            var id := "vid_" + NatToString(videoStamp);
            && catalog.content == Catalog.Videos(Catalog.Loaded(old(catalog.content)).value[id :=
                 Catalog.Video(id, text.value, catalog.PathOf(fileName), fileName, createdAt, [])])
            && (work.cleaned ==>
                  sessions == old(sessions)[chatId := NoFields.(processedVideo := Some(catalog.PathOf(fileName)), videoText := text, step := Some(WaitingPlatform))]))
      && (!Saves(text, work, old(catalog.content)) ==> catalog.content == old(catalog.content))
      && (!(Saves(text, work, old(catalog.content)) && work.cleaned) ==> sessions == old(sessions) - {chatId})
    }

    /**
     * `waiting_schedule_date`: a date in the future is filed as one post, or
     * two for "both", under the chat, and the session ends. Every other
     * outcome keeps the session: an unparsable or past date leaves the file
     * alone, and an invalid one still reads (and, when unreadable, creates)
     * the file before the format error.
     */
    twostate predicate DateHandled(chatId: int, text: Option<string>, now: int, toTime: DateFields -> Option<int>, stamp1: nat, stamp2: nat, new reply: ScheduleReply)
      reads this, jobs
    {
      var check := CheckDate(text, now, toTime);
      && chatId in old(sessions) && old(sessions)[chatId].schedulePlatform.Some?
      && (check.Past? <==> reply == PastDate)
      && (reply.Scheduled? ==> check.Future?)
      && (check.Unparsable? || check.Invalid? ==> reply == InvalidFormat)
      && (check.Unparsable? || check.Past? ==> sessions == old(sessions) && jobs.content == old(jobs.content))
      && (check.Invalid? ==>
            && sessions == old(sessions)
            && jobs.content == (if old(jobs.content).Unreadable? then Jobs.Posts(map[]) else old(jobs.content)))
      && (check.Future? && old(jobs.content).NoPosts? ==>
            sessions == old(sessions) && jobs.content == old(jobs.content) && reply == InvalidFormat)
      && (check.Future? && !old(jobs.content).NoPosts? ==>
            var s := old(sessions)[chatId];
            var store := if old(jobs.content).Posts? then old(jobs.content).posts else map[];
            && reply == Scheduled(check.when)
            && sessions == old(sessions) - {chatId}
            && jobs.content == Jobs.Posts(Jobs.Insert(store, IntToString(chatId),
                 Jobs.NewPosts(s.schedulePlatform.value, s.processedVideo, s.videoText, check.when, stamp1, stamp2))))
    }

    /**
     * `waiting_watermark`: "iptal" in any letter case cancels; any other text
     * becomes the watermark, trimmed. Both drop the session. A message
     * without text throws and changes nothing. The allow list never changes.
     */
    twostate predicate WatermarkSet(chatId: int, text: Option<string>)
      reads this, config
    {
      && config.allowedUsers == old(config.allowedUsers)
      && (text.None? ==> sessions == old(sessions) && config.watermark == old(config.watermark))
      && (text.Some? && LowerCase(text.value) == "iptal" ==>
            sessions == old(sessions) - {chatId} && config.watermark == old(config.watermark))
      && (text.Some? && LowerCase(text.value) != "iptal" ==>
            sessions == old(sessions) - {chatId} && config.watermark == Trim(text.value))
    }

    /** `waiting_url`: the text is the video URL; the session waits for the caption. */
    method SubmitUrl(chatId: int, text: Option<string>)
      requires Valid() && chatId in sessions && sessions[chatId].step == Some(WaitingUrl)
      modifies this
      ensures Valid()
      ensures UrlSubmitted(chatId, text)
    {
      sessions := sessions[chatId := sessions[chatId].(videoUrl := text, step := Some(WaitingText))];
    }

    /**
     * `waiting_text`: downloads the video, composites the caption onto it
     * and files the result in the catalog. A missing text fails when the
     * file name is built.
     */
    method ProcessCaption(chatId: int, text: Option<string>, work: Processing, fileStamp: nat, videoStamp: nat, createdAt: int)
      requires Valid() && chatId in sessions && sessions[chatId].step == Some(WaitingText)
      modifies this, catalog
      ensures Valid()
      ensures CaptionProcessed(chatId, text, work, fileStamp, videoStamp, createdAt)
    {
      if text.None? || !work.downloaded || !work.composited {
        sessions := sessions - {chatId};
        return;
      }
      var fileName := MaskedFileName(sessions[chatId].source.value, text.value, fileStamp);
      var saved := catalog.SaveVideo(fileName, text.value, work.copied, videoStamp, createdAt);
      if saved.None? || !work.cleaned {
        sessions := sessions - {chatId};
      } else {
        sessions := sessions[chatId := NoFields.(processedVideo := saved, videoText := text, step := Some(WaitingPlatform))];
      }
    }

    /** `waiting_schedule_date`: checks the date against the clock and files the posts. */
    method HandleScheduleDate(chatId: int, text: Option<string>, now: int, toTime: DateFields -> Option<int>, stamp1: nat, stamp2: nat)
      returns (reply: ScheduleReply)
      requires Valid() && chatId in sessions && sessions[chatId].step == Some(WaitingScheduleDate)
      modifies this, jobs
      ensures Valid()
      ensures DateHandled(chatId, text, now, toTime, stamp1, stamp2, reply)
    {
      var check := CheckDate(text, now, toTime);
      match check {
        case Unparsable =>
          reply := InvalidFormat;
        case Past =>
          reply := PastDate;
        case Invalid =>
          var _ := jobs.Load();
          reply := InvalidFormat;
        case Future(when) =>
          var loaded := jobs.Load();
          if loaded.None? {
            reply := InvalidFormat;
          } else {
            var s := sessions[chatId];
            var added := Jobs.NewPosts(s.schedulePlatform.value, s.processedVideo, s.videoText, when, stamp1, stamp2);
            jobs.Save(Jobs.Insert(loaded.value, IntToString(chatId), added));
            sessions := sessions - {chatId};
            reply := Scheduled(when);
          }
      }
    }

    /** `waiting_watermark`: cancels, or sets the trimmed watermark. */
    method SetWatermark(chatId: int, text: Option<string>)
      requires Valid() && chatId in sessions && sessions[chatId].step == Some(WaitingWatermark)
      modifies this, config
      ensures Valid()
      ensures WatermarkSet(chatId, text)
    {
      if text.None? {
        return;
      }
      if LowerCase(text.value) != "iptal" {
        config.watermark := Trim(text.value);
      }
      sessions := sessions - {chatId};
    }

    /**
     * The message handler: a chat without a session is ignored, otherwise
     * the session's step decides; steps that expect a button press ignore
     * text. Only the sending chat's session can change.
     */
    method OnMessage(chatId: int, text: Option<string>, env: Outside, toTime: DateFields -> Option<int>) returns (reply: Option<ScheduleReply>)
      requires Valid()
      modifies this, jobs, catalog, config
      ensures Valid()
      ensures sessions - {chatId} == old(sessions) - {chatId}
      ensures config.allowedUsers == old(config.allowedUsers)
      ensures reply.Some? <==> chatId in old(sessions) && old(sessions)[chatId].step == Some(WaitingScheduleDate)
      ensures chatId !in old(sessions) ==>
        && sessions == old(sessions)
        && jobs.content == old(jobs.content) && catalog.content == old(catalog.content) && config.watermark == old(config.watermark)
      ensures chatId in old(sessions) ==>
        var step := old(sessions)[chatId].step;
        && (step !in {Some(WaitingUrl), Some(WaitingText), Some(WaitingScheduleDate), Some(WaitingWatermark)} ==>
              && sessions == old(sessions)
              && jobs.content == old(jobs.content) && catalog.content == old(catalog.content) && config.watermark == old(config.watermark))
        && (step == Some(WaitingUrl) ==>
              && UrlSubmitted(chatId, text)
              && jobs.content == old(jobs.content) && catalog.content == old(catalog.content) && config.watermark == old(config.watermark))
        && (step == Some(WaitingText) ==>
              && CaptionProcessed(chatId, text, env.work, env.stamp1, env.stamp2, env.createdAt)
              && jobs.content == old(jobs.content) && config.watermark == old(config.watermark))
        && (step == Some(WaitingScheduleDate) ==>
              && DateHandled(chatId, text, env.now, toTime, env.stamp1, env.stamp2, reply.value)
              && catalog.content == old(catalog.content) && config.watermark == old(config.watermark))
        && (step == Some(WaitingWatermark) ==>
              && WatermarkSet(chatId, text)
              && jobs.content == old(jobs.content) && catalog.content == old(catalog.content))
    {
      reply := None;
      if chatId !in sessions {
        return;
      }
      var step := sessions[chatId].step;
      if step == Some(WaitingUrl) {
        SubmitUrl(chatId, text);
      } else if step == Some(WaitingText) {
        ProcessCaption(chatId, text, env.work, env.stamp1, env.stamp2, env.createdAt);
      } else if step == Some(WaitingScheduleDate) {
        var r := HandleScheduleDate(chatId, text, env.now, toTime, env.stamp1, env.stamp2);
        reply := Some(r);
      } else if step == Some(WaitingWatermark) {
        SetWatermark(chatId, text);
      }
    }
  }
}
