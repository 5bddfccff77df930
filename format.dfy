/**
 * The reply text: one numbered block per ranked video, then the footer.
 */
module Format {
  import Text
  import opened Ranking

  const WatchUrl := "https://www.youtube.com/watch?v="
  const Credit := " | Developed by MEHEDI AL TAYIB"

  /** The footer for the given calendar year (the year is read from the clock). */
  function Footer(year: nat): string {
    "\U{A9} " + Text.Decimal(year) + Credit
  }

  /** The block the video at 1-based rank `k` contributes:
      "k. title (N views)", a line break, its watch URL and a blank line. */
  function Entry(k: nat, v: Video): string {
    Text.Decimal(k) + ". " + v.title + " (" + Text.Decimal(v.viewCount) + " views)\n"
      + WatchUrl + v.videoId + "\n\n"
  }

  /** The blocks of all the videos, numbered from 1 in list order. */
  function Entries(vs: seq<Video>): string {
    if |vs| == 0 then "" else Entries(vs[..|vs| - 1]) + Entry(|vs|, vs[|vs| - 1])
  }

  /** The whole reply text for a ranked list. */
  function Message(vs: seq<Video>, year: nat): string {
    Entries(vs) + Footer(year)
  }

  /** Builds the reply text the way the handler does: start empty, append one
      block per video, then the footer. */
  method ComposeMessage(videos: seq<Video>, year: nat) returns (message: string)
    ensures message == Message(videos, year)
  {
    message := "";
    for i := 0 to |videos|
      invariant message == Entries(videos[..i])
    {
      var video := videos[i];
      var videoUrl := WatchUrl + video.videoId;
      var block := Text.Decimal(i + 1) + ". " + video.title
        + " (" + Text.Decimal(video.viewCount) + " views)\n" + videoUrl + "\n\n";
      assert block == Entry(i + 1, video);
      assert videos[..i + 1][..i] == videos[..i];
      assert Entries(videos[..i + 1]) == Entries(videos[..i]) + block;
      message := message + block;
    }
    assert videos[..|videos|] == videos;
    message := message + Footer(year);
  }

  /** Listing fewer videos gives a prefix of the text. */
  lemma {:induction false} EntriesPrefix(vs: seq<Video>, j: nat)
    requires j <= |vs|
    ensures Entries(vs[..j]) <= Entries(vs)
    decreases |vs|
  {
    if j < |vs| {
      var init := vs[..|vs| - 1];
      assert init[..j] == vs[..j];
      EntriesPrefix(init, j);
      var p, q := Entries(vs[..j]), Entries(init);
      assert Entries(vs) == q + Entry(|vs|, vs[|vs| - 1]);
      assert Entries(vs)[..|p|] == q[..|p|];
    } else {
      assert vs[..j] == vs;
    }
  }

  /** Each video k (0-based) of the list owns its block, in list order: the text
      up to and including video k's block is a prefix of the message. */
  lemma EntryInPlace(vs: seq<Video>, k: nat, year: nat)
    requires k < |vs|
    ensures Entries(vs[..k]) + Entry(k + 1, vs[k]) <= Message(vs, year)
  {
    var upto := vs[..k + 1];
    assert upto[..k] == vs[..k] && upto[k] == vs[k];
    assert Entries(upto) == Entries(vs[..k]) + Entry(k + 1, vs[k]);
    EntriesPrefix(vs, k + 1);
    var p := Entries(upto);
    assert Message(vs, year)[..|p|] == Entries(vs)[..|p|];
  }

  /** The message ends with the footer, after every video's block. */
  lemma MessageEndsWithFooter(vs: seq<Video>, year: nat)
    ensures var m := Message(vs, year);
      |m| >= |Footer(year)| && m[|m| - |Footer(year)|..] == Footer(year)
  {
  }
}
