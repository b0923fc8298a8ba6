/**
 * The immediate share (`share_now:<platform>`): which uploads run, in
 * which order, at which progress checkpoints, and whether the share is
 * reported as a success. The uploads themselves are outside the model;
 * their outcomes are inputs.
 */
module Dispatch {
  import opened Wrappers

  /** The two upload collaborators: Instagram Reels and YouTube Shorts. */
  datatype Upload = Reels | Shorts

  /**
   * One immediate share: the uploads started, the progress shown before
   * each, the verdict, and the video path and caption every upload is
   * called with.
   */
  datatype ShareRun = ShareRun(uploads: seq<Upload>, checkpoints: seq<int>, succeeded: bool, video: string, caption: string)

  /** Whether an upload resolves, given the outcome of each collaborator. */
  function Resolves(u: Upload, reelsOk: bool, shortsOk: bool): bool {
    match u
    case Reels => reelsOk
    case Shorts => shortsOk
  }

  /**
   * `share_now:<platform>`: for "both", Reels at 25% and then, only if it
   * resolved, Shorts at 75%; for "instagram" Reels alone; for any other
   * platform Shorts alone. A rejected upload ends the share with an error.
   */
  function ShareNow(platform: string, video: string, caption: string, reelsOk: bool, shortsOk: bool): (r: ShareRun)
    ensures |r.uploads| >= 1 && |r.checkpoints| <= |r.uploads|
    ensures r.succeeded <==> forall i :: 0 <= i < |r.uploads| ==> Resolves(r.uploads[i], reelsOk, shortsOk)
    ensures forall i :: 0 <= i < |r.uploads| - 1 ==> Resolves(r.uploads[i], reelsOk, shortsOk)
    ensures r.video == video && r.caption == caption
    ensures r.uploads[0] == (if platform == "both" || platform == "instagram" then Reels else Shorts)
    ensures Shorts in r.uploads <==> platform != "instagram" && (platform != "both" || reelsOk)
    ensures platform == "both" ==>
      && r.uploads == (if reelsOk then [Reels, Shorts] else [Reels])
      && r.checkpoints == (if reelsOk then [25, 75] else [25])
    ensures platform != "both" ==> |r.uploads| == 1 && r.checkpoints == []
  {
    if platform == "both" then
      if reelsOk then
        var r := ShareRun([Reels, Shorts], [25, 75], shortsOk, video, caption);
        assert r.uploads[1] == Shorts;
        r
      else
        var r := ShareRun([Reels], [25], false, video, caption);
        assert !Resolves(r.uploads[0], reelsOk, shortsOk);
        r
    else if platform == "instagram" then
      var r := ShareRun([Reels], [], reelsOk, video, caption);
      assert r.uploads[0] == Reels;
      r
    else
      var r := ShareRun([Shorts], [], shortsOk, video, caption);
      assert r.uploads[0] == Shorts;
      r
  }

  /** For "both" the uploads run one after the other, Reels first, and Shorts only after Reels resolved. */
  lemma BothRunsInOrder(video: string, caption: string, reelsOk: bool, shortsOk: bool)
    ensures var r := ShareNow("both", video, caption, reelsOk, shortsOk);
      && r.uploads[0] == Reels
      && (Shorts in r.uploads <==> reelsOk)
      && (r.succeeded <==> reelsOk && shortsOk)
      && forall i, j :: 0 <= i < j < |r.checkpoints| ==> r.checkpoints[i] < r.checkpoints[j]
  {
  }

  /** A single-platform share starts exactly one upload, Reels only for "instagram". */
  lemma SingleRunsOne(platform: string, video: string, caption: string, reelsOk: bool, shortsOk: bool)
    requires platform != "both"
    ensures var r := ShareNow(platform, video, caption, reelsOk, shortsOk);
      r.uploads == (if platform == "instagram" then [Reels] else [Shorts])
  {
  }

  /**
   * When Reels resolves and Shorts rejects, a "both" share is reported as a
   * failure although Reels was published: the partial success is not reported.
   */
  lemma BothPartialSuccessReportedAsFailure(video: string, caption: string)
    ensures var r := ShareNow("both", video, caption, true, false);
      r.uploads == [Reels, Shorts] && !r.succeeded
  {
  }
}
