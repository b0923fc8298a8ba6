/**
 * The video catalog (`videos.json`): `saveVideo` files a composited video
 * under a fresh `vid_<stamp>` id with no platforms, and
 * `updateVideoPlatform` records a platform a video was shared to, once.
 */
module Catalog {
  import opened Wrappers
  import opened Strings

  /** One catalogued video; `createdAt` is the instant in milliseconds. */
  datatype Video = Video(id: string, title: string, path: string, fileName: string, createdAt: int, platforms: seq<string>)

  /** What reading and parsing the catalog file gives. */
  datatype CatalogContent =
    | Unreadable                              // missing, or not JSON: `loadVideos` returns `{ videos: {} }`
    | NoVideos                                // JSON without a `videos` object
    | Videos(videos: map<string, Video>)

  /** No platform is listed twice. */
  predicate NoDuplicates(platforms: seq<string>) {
    forall i, j :: 0 <= i < j < |platforms| ==> platforms[i] != platforms[j]
  }

  /** Every video is filed under its own id and lists each platform once. */
  predicate ValidVideos(m: map<string, Video>) {
    forall id :: id in m ==> m[id].id == id && NoDuplicates(m[id].platforms)
  }

  /** `loadVideos()`: an unreadable file reads as an empty catalog. */
  function Loaded(content: CatalogContent): Option<map<string, Video>> {
    match content
    case Unreadable => Some(map[])
    case NoVideos => None
    case Videos(m) => Some(m)
  }

  /** The catalog after recording that video `id` was shared to `platform`. */
  function WithPlatform(m: map<string, Video>, id: string, platform: string): map<string, Video> {
    if id in m && platform !in m[id].platforms then m[id := m[id].(platforms := m[id].platforms + [platform])]
    else m
  }

  /** Recording a platform keeps the catalog valid, lists the platform, and touches no other video. */
  lemma WithPlatformValid(m: map<string, Video>, id: string, platform: string)
    requires ValidVideos(m)
    ensures ValidVideos(WithPlatform(m, id, platform))
    ensures WithPlatform(m, id, platform).Keys == m.Keys
    ensures id in m ==> platform in WithPlatform(m, id, platform)[id].platforms
    ensures forall other :: other in m && other != id ==> WithPlatform(m, id, platform)[other] == m[other]
  {
    if id in m && platform !in m[id].platforms {
      var ps := m[id].platforms + [platform];
      forall i, j | 0 <= i < j < |ps| ensures ps[i] != ps[j] {
        if j == |ps| - 1 {
          assert ps[i] == m[id].platforms[i];
        }
      }
      assert ps[|ps| - 1] == platform;
    }
  }

  /** Recording the same platform twice is recording it once. */
  lemma WithPlatformIdempotent(m: map<string, Video>, id: string, platform: string)
    ensures WithPlatform(WithPlatform(m, id, platform), id, platform) == WithPlatform(m, id, platform)
  {
    if id in m && platform !in m[id].platforms {
      var ps := m[id].platforms + [platform];
      assert ps[|ps| - 1] == platform;
    }
  }

  /** The video directory and the catalog file, updated in place. */
  class VideoCatalog {
    const dir: string
    var content: CatalogContent

    constructor(dir: string, initial: CatalogContent)
      ensures this.dir == dir && content == initial
    {
      this.dir := dir;
      content := initial;
    }

    /** `path.join(VIDEOS_DIR, fileName)` for a plain file name. */
    function PathOf(fileName: string): string
      reads this
    {
      dir + "/" + fileName
    }

    /**
     * `saveVideo(input, fileName, title)`: copies the video into the video
     * directory (`copied` says whether the copy succeeded), then files it
     * under `vid_<stamp>` with no platforms and returns its path. `None` is
     * the rethrown error: a failed copy, or a file without `videos`.
     */
    method SaveVideo(fileName: string, title: string, copied: bool, stamp: nat, createdAt: int) returns (r: Option<string>)
      modifies this
      ensures !copied || old(content).NoVideos? ==> content == old(content) && r.None?
      ensures copied && !old(content).NoVideos? ==>
        var id := "vid_" + NatToString(stamp);
        && r == Some(PathOf(fileName))
        && content == Videos(Loaded(old(content)).value[id := Video(id, title, PathOf(fileName), fileName, createdAt, [])])
    {
      if !copied {
        return None;
      }
      var loaded := Loaded(content);
      if loaded.None? {
        return None;
      }
      var id := "vid_" + NatToString(stamp);
      var path := PathOf(fileName);
      content := Videos(loaded.value[id := Video(id, title, path, fileName, createdAt, [])]);
      r := Some(path);
    }

    /**
     * `updateVideoPlatform(id, platform)`: appends the platform to a known
     * video that does not list it yet and writes the catalog; an unknown id,
     * a listed platform or a file without `videos` changes nothing.
     */
    method UpdateVideoPlatform(id: string, platform: string)
      modifies this
      ensures old(content).Videos? && id in old(content).videos && platform !in old(content).videos[id].platforms ==>
        content == Videos(WithPlatform(old(content).videos, id, platform))
      ensures !(old(content).Videos? && id in old(content).videos && platform !in old(content).videos[id].platforms) ==>
        content == old(content)
    {
      var loaded := Loaded(content);
      if loaded.Some? && id in loaded.value && platform !in loaded.value[id].platforms {
        content := Videos(WithPlatform(loaded.value, id, platform));
      }
    }
  }

  /** A video filed by `saveVideo` keeps a valid catalog valid. */
  lemma SavedVideoValid(m: map<string, Video>, stamp: nat, title: string, path: string, fileName: string, createdAt: int)
    requires ValidVideos(m)
    ensures var id := "vid_" + NatToString(stamp);
      ValidVideos(m[id := Video(id, title, path, fileName, createdAt, [])])
  {
  }
}
