/** The watched-video history (background.js `markVideoWatched`): a list of
    ids kept to the 500 most recently added. */
module Watched {
  import opened Seqs
  import opened Videos

  const WatchedLimit: nat := 500

  /** `new Set(list)`, add `id`, `Array.from(...).slice(-500)`. */
  function MarkWatched(list: seq<VideoId>, id: VideoId): (r: seq<VideoId>)
    ensures |r| <= WatchedLimit
    ensures NoDup(r)
    ensures forall x :: x in r ==> x in list || x == id
    ensures |Dedupe(list)| <= WatchedLimit ==> id in r
  {
    var d := Dedupe(list);
    var added := if id in d then d else d + [id];
    assert NoDup(added);
    var r := TakeLast(added, WatchedLimit);
    NoDupSuffix(added, |added| - |r|);
    assert id !in d ==> r[|r| - 1] == id;
    r
  }

  /** On a history without repeats of at most 500 ids: an id already present
      leaves the history unchanged; a new id is appended, and the oldest id
      dropped when the history was full. */
  lemma MarkWatchedOnHistory(list: seq<VideoId>, id: VideoId)
    requires NoDup(list) && |list| <= WatchedLimit
    ensures id in list ==> MarkWatched(list, id) == list
    ensures id !in list && |list| < WatchedLimit ==> MarkWatched(list, id) == list + [id]
    ensures id !in list && |list| == WatchedLimit ==> MarkWatched(list, id) == list[1..] + [id]
  {
    DedupeOfNoDup(list);
    if id !in list && |list| == WatchedLimit {
      assert (list + [id])[1..] == list[1..] + [id];
    }
  }

  /** The history never loses its own repeat-freedom or bound, so the
      assumptions of `MarkWatchedOnHistory` hold after every click. */
  lemma MarkWatchedKeepsShape(list: seq<VideoId>, id: VideoId)
    requires NoDup(list) && |list| <= WatchedLimit
    ensures NoDup(MarkWatched(list, id)) && |MarkWatched(list, id)| <= WatchedLimit
    ensures id in MarkWatched(list, id)
    ensures forall x :: x in list && x != id && x !in MarkWatched(list, id) ==> |list| == WatchedLimit && x == list[0]
  {
    MarkWatchedOnHistory(list, id);
    DedupeOfNoDup(list);
    if id !in list && |list| == WatchedLimit {
      forall x | x in list && x != id && x !in MarkWatched(list, id) ensures x == list[0] {
        var i :| 0 <= i < |list| && list[i] == x;
      }
    }
  }
}
