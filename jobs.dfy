/**
 * The scheduled-posts file (`scheduled.json`) and the pass that runs over
 * it once a minute: every post whose date has come is attempted once and
 * removed whatever the attempt gives, owners left without posts are
 * removed, and the file is rewritten only when something was removed.
 * Also the posts the schedule-date handler inserts.
 */
module Jobs {
  import opened Wrappers
  import opened Strings

  /**
   * One scheduled post. `videoPath` and `caption` are absent when the
   * session held none (JSON drops `undefined`); `scheduledDate` is the
   * instant in milliseconds, absent when the stored text is not a date.
   */
  datatype Post = Post(id: string, platform: string, videoPath: Option<string>, caption: Option<string>, scheduledDate: Option<int>)

  /** `posts`: chat id to post id to post. */
  type Store = map<string, map<string, Post>>

  /** What reading and parsing the file gives. */
  datatype JobsContent =
    | Unreadable           // missing, or not JSON
    | NoPosts              // JSON without a `posts` object
    | Posts(posts: Store)

  /** Every post is filed under its own id. */
  predicate ValidStore(s: Store) {
    forall c, k :: c in s && k in s[c] ==> s[c][k].id == k
  }

  /** `new Date(post.scheduledDate) <= now`; an invalid date compares false. */
  predicate Due(p: Post, now: int) {
    p.scheduledDate.Some? && p.scheduledDate.value <= now
  }

  /** The posts of one owner that a pass at `now` leaves in place. */
  function Pending(m: map<string, Post>, now: int): map<string, Post> {
    map k | k in m && !Due(m[k], now) :: m[k]
  }

  /** The store after a pass at `now`: due posts gone, then owners without posts gone. */
  function AfterPass(s: Store, now: int): Store {
    map c | c in s && Pending(s[c], now) != map[] :: Pending(s[c], now)
  }

  /** A pass sets `hasChanges` for an owner that had a due post or no post at all. */
  predicate Changes(m: map<string, Post>, now: int) {
    Pending(m, now) != m || m == map[]
  }

  /** After a pass, no post left is due, and every post left is unchanged. */
  lemma AfterPassLeavesNothingDue(s: Store, now: int)
    ensures forall c, k :: c in AfterPass(s, now) && k in AfterPass(s, now)[c] ==>
      c in s && k in s[c] && !Due(s[c][k], now) && AfterPass(s, now)[c][k] == s[c][k]
    ensures forall c, k :: c in s && k in s[c] && !Due(s[c][k], now) ==>
      c in AfterPass(s, now) && k in AfterPass(s, now)[c]
  {
    forall c, k | c in s && k in s[c] && !Due(s[c][k], now)
      ensures c in AfterPass(s, now) && k in AfterPass(s, now)[c]
    {
      assert k in Pending(s[c], now);
    }
  }

  /** A pass keeps every post under its own id. */
  lemma AfterPassValid(s: Store, now: int)
    requires ValidStore(s)
    ensures ValidStore(AfterPass(s, now))
  {
    AfterPassLeavesNothingDue(s, now);
  }

  /**
   * After a pass no owner is left without posts: an owner survives exactly
   * when one of its posts is not yet due.
   */
  lemma AfterPassDropsEmptyOwners(s: Store, now: int)
    ensures forall c :: c in AfterPass(s, now) ==> AfterPass(s, now)[c] != map[]
    ensures forall c :: c in AfterPass(s, now) <==> c in s && exists k :: k in s[c] && !Due(s[c][k], now)
  {
    forall c | c in s && (exists k :: k in s[c] && !Due(s[c][k], now))
      ensures c in AfterPass(s, now)
    {
      var k :| k in s[c] && !Due(s[c][k], now);
      assert k in Pending(s[c], now);
    }
  }

  /** The pass writes the file back exactly when some owner had a due post or no post. */
  lemma AfterPassChanges(s: Store, now: int)
    ensures AfterPass(s, now) != s <==> exists c :: c in s && Changes(s[c], now)
  {
    var r := AfterPass(s, now);
    if exists c :: c in s && Changes(s[c], now) {
      var c :| c in s && Changes(s[c], now);
      if c in r {
        assert r[c] == Pending(s[c], now) != s[c];
      }
    } else {
      forall c | c in s ensures c in r && r[c] == s[c] {
        assert Pending(s[c], now) == s[c];
      }
      assert r.Keys == s.Keys;
    }
  }

  /** A second pass at the same instant changes nothing. */
  lemma AfterPassIdempotent(s: Store, now: int)
    ensures AfterPass(AfterPass(s, now), now) == AfterPass(s, now)
  {
    var r := AfterPass(s, now);
    forall c | c in r ensures Pending(r[c], now) == r[c] {
      AfterPassLeavesNothingDue(s, now);
    }
    AfterPassChanges(r, now);
  }

  /** A pass at a later instant removes everything an earlier one did. */
  lemma LaterPassSubsumes(s: Store, t1: int, t2: int)
    requires t1 <= t2
    ensures AfterPass(AfterPass(s, t1), t2) == AfterPass(s, t2)
  {
    var r1 := AfterPass(s, t1);
    forall c | c in r1 ensures Pending(r1[c], t2) == Pending(s[c], t2) {
    }
    forall c | c in s && c !in r1 ensures Pending(s[c], t2) == map[] {
      assert Pending(s[c], t1) == map[];
      forall k | k in s[c] ensures Due(s[c][k], t2) {
        assert k !in Pending(s[c], t1);
      }
    }
  }

  // ---------------------------------------------------------------- one pass

  /** What happened to a due post; the post is removed in every case. */
  datatype Outcome =
    | VideoMissing        // `fs.access(videoPath)` rejected (or there was no path)
    | Published           // the upload resolved
    | UploadFailed        // the upload rejected
    | Skipped             // a platform other than instagram or youtube: nothing uploaded

  predicate IsUploadPlatform(platform: string) {
    platform == "instagram" || platform == "youtube"
  }

  /** The outcomes a due post can have. */
  predicate Possible(p: Post, o: Outcome) {
    match o
    case VideoMissing => true
    case Published => p.videoPath.Some? && IsUploadPlatform(p.platform)
    case UploadFailed => p.videoPath.Some? && IsUploadPlatform(p.platform)
    case Skipped => p.videoPath.Some? && !IsUploadPlatform(p.platform)
  }

  /**
   * The attempt at one due post: the video file must exist, then instagram
   * posts go to Reels and youtube posts to Shorts. Whether the file is there
   * and whether an upload succeeds are outside the model and chosen freely.
   */
  method AttemptPost(p: Post) returns (o: Outcome)
    ensures Possible(p, o)
    ensures p.videoPath.None? ==> o == VideoMissing
  {
    if p.videoPath.None? {
      return VideoMissing;
    }
    var present: bool := *;
    if !present {
      return VideoMissing;
    }
    if IsUploadPlatform(p.platform) {
      var succeeded: bool := *;
      o := if succeeded then Published else UploadFailed;
    } else {
      o := Skipped;
    }
  }

  /**
   * The inner loop of the pass over one owner's posts: every due post is
   * attempted once and deleted; `changed` is the owner's share of `hasChanges`.
   */
  method SweepOwner(schedule: map<string, Post>, now: int) returns (kept: map<string, Post>, outcomes: map<string, Outcome>, changed: bool)
    ensures kept == Pending(schedule, now)
    ensures changed <==> Changes(schedule, now)
    ensures forall k :: k in outcomes <==> k in schedule && Due(schedule[k], now)
    ensures forall k :: k in outcomes ==> Possible(schedule[k], outcomes[k])
  {
    kept, outcomes, changed := schedule, map[], false;
    var remaining := schedule.Keys;
    while remaining != {}
      invariant remaining <= schedule.Keys
      invariant kept == map k | k in schedule && (k in remaining || !Due(schedule[k], now)) :: schedule[k]
      invariant changed <==> exists k :: k in schedule && k !in remaining && Due(schedule[k], now)
      invariant forall k :: k in outcomes <==> k in schedule && k !in remaining && Due(schedule[k], now)
      invariant forall k :: k in outcomes ==> Possible(schedule[k], outcomes[k])
      decreases remaining
    {
      var k :| k in remaining;
      if Due(schedule[k], now) {
        var o := AttemptPost(schedule[k]);
        outcomes := outcomes[k := o];
        kept := kept - {k};
        changed := true;
      }
      remaining := remaining - {k};
    }
    if !changed {
      assert kept == schedule;
    } else {
      var k :| k in schedule && Due(schedule[k], now);
      assert k !in kept;
    }
    if kept == map[] {
      changed := true;
    }
  }

  /** The store after the owners in `done` have been swept and the others not yet. */
  function PassOwners(s: Store, now: int, remaining: set<string>): Store {
    map c | c in s && (c in remaining || Pending(s[c], now) != map[]) :: if c in remaining then s[c] else Pending(s[c], now)
  }

  /** Before the first owner is swept the store is the one read. */
  lemma PassOwnersStart(s: Store, now: int)
    ensures PassOwners(s, now, s.Keys) == s
  {
  }

  /** Once every owner is swept the store is the one a pass promises. */
  lemma PassOwnersEnd(s: Store, now: int)
    ensures PassOwners(s, now, {}) == AfterPass(s, now)
  {
  }

  /** Sweeping owner `c` replaces its posts by the pending ones, or drops it when none is pending. */
  lemma PassOwnersStep(s: Store, now: int, remaining: set<string>, c: string)
    requires c in remaining && remaining <= s.Keys
    ensures Pending(s[c], now) == map[] ==> PassOwners(s, now, remaining - {c}) == PassOwners(s, now, remaining) - {c}
    ensures Pending(s[c], now) != map[] ==> PassOwners(s, now, remaining - {c}) == PassOwners(s, now, remaining)[c := Pending(s[c], now)]
  {
  }

  /** The attempts recorded for one owner, keyed by chat id and post id. */
  function OwnerAttempts(c: string, outcomes: map<string, Outcome>): map<(string, string), Outcome> {
    map k | k in outcomes :: (c, k) := outcomes[k]
  }

  /** The attempts recorded so far are exactly the due posts of the owners already swept. */
  ghost predicate AttemptsCover(s: Store, now: int, remaining: set<string>, attempts: map<(string, string), Outcome>) {
    forall c, k :: (c, k) in attempts <==> c in s && c !in remaining && k in s[c] && Due(s[c][k], now)
  }

  /** Every recorded attempt has an outcome its post can have. */
  ghost predicate AttemptsPossible(s: Store, attempts: map<(string, string), Outcome>) {
    forall c, k :: (c, k) in attempts ==> c in s && k in s[c] && Possible(s[c][k], attempts[(c, k)])
  }

  /** Adding one owner's outcomes to the attempts keeps both properties for the owners swept so far. */
  lemma AttemptsStep(s: Store, now: int, remaining: set<string>, c: string,
                     attempts: map<(string, string), Outcome>, outcomes: map<string, Outcome>)
    requires c in remaining && remaining <= s.Keys
    requires AttemptsCover(s, now, remaining, attempts) && AttemptsPossible(s, attempts)
    requires forall k :: k in outcomes <==> k in s[c] && Due(s[c][k], now)
    requires forall k :: k in outcomes ==> Possible(s[c][k], outcomes[k])
    ensures AttemptsCover(s, now, remaining - {c}, attempts + OwnerAttempts(c, outcomes))
    ensures AttemptsPossible(s, attempts + OwnerAttempts(c, outcomes))
  {
    var added := OwnerAttempts(c, outcomes);
    assert forall c', k :: (c', k) in added <==> c' == c && k in outcomes;
  }

  /** The scheduled-posts file, read and rewritten in place. */
  class JobFile {
    var content: JobsContent

    constructor(initial: JobsContent)
      ensures content == initial
    {
      content := initial;
    }

    /**
     * One run of the minute timer at instant `now`. A file that cannot be
     * read, or holds no `posts`, is left alone; otherwise every due post is
     * attempted and removed, empty owners are removed, and the file is
     * written back when anything was removed.
     */
    method RunPass(now: int) returns (wrote: bool, attempts: map<(string, string), Outcome>)
      modifies this
      ensures !old(content).Posts? ==> content == old(content) && !wrote && attempts == map[]
      ensures old(content).Posts? ==> content == Posts(AfterPass(old(content).posts, now))
      ensures old(content).Posts? ==> (wrote <==> exists c :: c in old(content).posts && Changes(old(content).posts[c], now))
      ensures old(content).Posts? ==> forall c, k :: (c, k) in attempts <==>
        c in old(content).posts && k in old(content).posts[c] && Due(old(content).posts[c][k], now)
      ensures old(content).Posts? ==> forall c, k :: (c, k) in attempts ==>
        c in old(content).posts && k in old(content).posts[c] && Possible(old(content).posts[c][k], attempts[(c, k)])
    {
      wrote, attempts := false, map[];
      if !content.Posts? {
        return;
      }
      var s := content.posts;
      var data := s;
      var changed := false;
      var remaining := s.Keys;
      PassOwnersStart(s, now);
      while remaining != {}
        invariant content == old(content)
        invariant remaining <= s.Keys
        invariant data == PassOwners(s, now, remaining)
        invariant changed <==> exists c :: c in s && c !in remaining && Changes(s[c], now)
        invariant AttemptsCover(s, now, remaining, attempts)
        invariant AttemptsPossible(s, attempts)
        decreases remaining
      {
        var c :| c in remaining;
        var kept, outcomes, ownerChanged := SweepOwner(s[c], now);
        PassOwnersStep(s, now, remaining, c);
        AttemptsStep(s, now, remaining, c, attempts, outcomes);
        attempts := attempts + OwnerAttempts(c, outcomes);
        if kept == map[] {
          data := data - {c};
        } else {
          data := data[c := kept];
        }
        changed := changed || ownerChanged;
        remaining := remaining - {c};
      }
      PassOwnersEnd(s, now);
      if changed {
        content := Posts(data);
        wrote := true;
      } else {
        assert !exists c :: c in s && Changes(s[c], now);
        AfterPassChanges(s, now);
      }
    }

    /**
     * The read at the start of the schedule-date handler: an unreadable file
     * is replaced by one with an empty `posts` object, which is then used;
     * `None` is the TypeError of a file without `posts`.
     */
    method Load() returns (data: Option<Store>)
      modifies this
      ensures old(content).Unreadable? ==> content == Posts(map[]) && data == Some(map[])
      ensures old(content).NoPosts? ==> content == old(content) && data == None
      ensures old(content).Posts? ==> content == old(content) && data == Some(old(content).posts)
    {
      match content
      case Unreadable =>
        content := Posts(map[]);
        data := Some(map[]);
      case NoPosts =>
        data := None;
      case Posts(s) =>
        data := Some(s);
    }

    /** `fs.writeFile(SCHEDULED_FILE, JSON.stringify(...))`. */
    method Save(s: Store)
      modifies this
      ensures content == Posts(s)
    {
      content := Posts(s);
    }
  }

  // ---------------------------------------------------------------- inserting posts

  /** The post id the handler builds from a `Date.now()` stamp and a suffix. */
  function PostId(stamp: nat, suffix: string): string {
    "post_" + NatToString(stamp) + suffix
  }

  /**
   * The posts the schedule-date handler inserts: for "both" one instagram
   * and one youtube post (each id from its own `Date.now()`), otherwise one
   * post for the chosen platform; all share the video, caption and date.
   */
  function NewPosts(platform: string, videoPath: Option<string>, caption: Option<string>, when: int, stamp1: nat, stamp2: nat): (r: map<string, Post>)
    ensures forall k :: k in r ==> r[k].id == k && r[k].videoPath == videoPath && r[k].caption == caption && r[k].scheduledDate == Some(when)
    ensures platform == "both" ==> |r| == 2 && exists a, b :: a in r && b in r && r[a].platform == "instagram" && r[b].platform == "youtube"
    ensures platform == "both" ==>
      && PostId(stamp1, "_instagram") in r && r[PostId(stamp1, "_instagram")].platform == "instagram"
      && PostId(stamp2, "_youtube") in r && r[PostId(stamp2, "_youtube")].platform == "youtube"
    ensures platform != "both" ==> |r| == 1 && forall k :: k in r ==> r[k].platform == platform
    ensures platform != "both" ==> PostId(stamp1, "") in r
  {
    if platform == "both" then
      var a, b := PostId(stamp1, "_instagram"), PostId(stamp2, "_youtube");
      assert a[|a| - 1] != b[|b| - 1];
      var r := map[a := Post(a, "instagram", videoPath, caption, Some(when)),
                   b := Post(b, "youtube", videoPath, caption, Some(when))];
      assert r[a].platform == "instagram" && r[b].platform == "youtube";
      r
    else
      var a := PostId(stamp1, "");
      map[a := Post(a, platform, videoPath, caption, Some(when))]
  }

  /** `posts[chatId] ||= {}` followed by the insertion of the new posts. */
  function Insert(s: Store, chatId: string, added: map<string, Post>): Store {
    s[chatId := (if chatId in s then s[chatId] else map[]) + added]
  }

  /** Inserting posts filed under their own ids keeps the store valid and loses nothing else. */
  lemma InsertValid(s: Store, chatId: string, added: map<string, Post>)
    requires ValidStore(s)
    requires forall k :: k in added ==> added[k].id == k
    ensures ValidStore(Insert(s, chatId, added))
    ensures forall c, k :: c in s && k in s[c] && !(c == chatId && k in added) ==>
      c in Insert(s, chatId, added) && k in Insert(s, chatId, added)[c] && Insert(s, chatId, added)[c][k] == s[c][k]
  {
  }

  /** A post scheduled for `when` survives every pass before `when` and none at or after it. */
  lemma ScheduledPostLifetime(s: Store, chatId: string, added: map<string, Post>, when: int, now: int)
    requires forall k :: k in added ==> added[k].scheduledDate == Some(when)
    ensures now < when ==> forall k :: k in added ==>
      chatId in AfterPass(Insert(s, chatId, added), now) && AfterPass(Insert(s, chatId, added), now)[chatId][k] == added[k]
    ensures when <= now ==> forall k :: k in added ==>
      !(chatId in AfterPass(Insert(s, chatId, added), now) && k in AfterPass(Insert(s, chatId, added), now)[chatId])
  {
    var t := Insert(s, chatId, added);
    AfterPassLeavesNothingDue(t, now);
    assert chatId in t && forall k :: k in added ==> k in t[chatId] && t[chatId][k] == added[k];
  }
}
