/** Composing the announcement: handle resolution, the game label, the nine
    templates, the length check and the fallback. */
module Compose {
  import opened Text
  import opened Roster

  /** The length limit of a tweet, in bytes as Go's `len` counts them. */
  const MaxTweetBytes := 140

  /** `FitsTweet`: the text is short enough to post. */
  predicate FitsTweet(tweet: string)
  {
    ByteLen(tweet) <= MaxTweetBytes
  }

  /** For ASCII text, bytes and characters agree, so the limit is 140
      characters; for any text, fitting implies at most 140 characters. */
  lemma FitsTweetLength(tweet: string)
    ensures FitsTweet(tweet) ==> |tweet| <= MaxTweetBytes
    ensures IsAscii(tweet) ==> (FitsTweet(tweet) <==> |tweet| <= MaxTweetBytes)
  {
    ByteLenBounds(tweet);
  }

  /** Cutting text short never stops it from fitting. */
  lemma FitsTweetPrefix(a: string, b: string)
    ensures FitsTweet(a + b) ==> FitsTweet(a) && FitsTweet(b)
  {
    ByteLenAppend(a, b);
  }

  /** The games `ShortGame` abbreviates, with their hashtags. */
  const GameTags: map<string, string> := map[
    "Hearthstone: Heroes of Warcraft" := "#Hearthstone",
    "Counter-Strike: Global Offensive" := "#CSGO",
    "Return to Castle Wolfenstein" := "#RTCW",
    "Call of Duty 4: Modern Warfare" := "#CoD4",
    "Team Fortress 2" := "#TF2",
    "World of Warcraft" := "#WoW",
    "Overwatch" := "#Overwatch",
    "Quake Live" := "#QuakeLive"
  ]

  /** What an announcement says when Twitch reports no game. */
  const NoGameLabel := "some games"

  /** `ShortGame`: a listed game becomes its hashtag, no game becomes
      "some games", anything else is kept as it is. */
  function ShortGame(game: string): (tag: string)
    ensures tag != ""
    ensures game in GameTags ==> tag == GameTags[game] && tag[0] == '#'
    ensures game == "" ==> tag == NoGameLabel
    ensures game !in GameTags && game != "" ==> tag == game
  {
    if game in GameTags then GameTags[game]
    else if game == "" then NoGameLabel
    else game
  }

  /** Labels are fixed points: shortening a label again changes nothing. */
  lemma ShortGameIdempotent(game: string)
    ensures ShortGame(ShortGame(game)) == ShortGame(game)
  {
  }

  /** The cases of the ShortGame test. */
  lemma ShortGameExamples()
    ensures ShortGame("Counter-Strike: Global Offensive") == "#CSGO"
    ensures ShortGame("Hearthstone: Heroes of Warcraft") == "#Hearthstone"
    ensures ShortGame("Overwatch") == "#Overwatch"
    ensures ShortGame("Dark Souls") == "Dark Souls"
    ensures ShortGame("") == "some games"
  {
  }

  /** The values of the Twitter column that mean "this streamer has no handle". */
  predicate IsNoHandle(twitter: string)
  {
    twitter == "NoTwitter" || twitter == "" || twitter == "none"
  }

  /** The name an announcement uses for the streamer: the Twitter handle, or
      the display name when the handle is a sentinel. */
  function Handle(s: Streamer): (h: string)
    ensures IsNoHandle(s.twitter) ==> h == s.name
    ensures !IsNoHandle(s.twitter) ==> h == s.twitter
    ensures s.name != "" ==> h != ""
  {
    if IsNoHandle(s.twitter) then s.name else s.twitter
  }

  /** The channel's address. */
  function Url(user: string): (url: string)
    ensures |url| == 18 + |user|
    ensures url[..18] == "https://twitch.tv/" && url[18..] == user
  {
    "https://twitch.tv/" + user
  }

  /** Number of random templates. */
  const TemplateCount := 9

  /** An index `rand.Intn(9)` can return. */
  type TemplateIndex = k: int | 0 <= k < TemplateCount

  /** The nine announcement templates, filled with handle `h`, Twitch user
      `u` and game label `g`. */
  function Candidates(h: string, u: string, g: string): (tweets: seq<string>)
    ensures |tweets| == TemplateCount
  {
    [ "Looking for streams? " + h + " is now live at " + Url(u) + " - come and watch!",
      "Come and watch " + h + " with us over on " + Url(u) + " ! ",
      "Searching for new streams? " + h + " is now live at " + Url(u) + " - come say hi!",
      "Watch " + h + " with us over on " + Url(u) + " ! ",
      "Our friend " + h + " is now live at " + Url(u) + " - check out the stream!",
      "Check out " + h + " live with " + g + " now! " + Url(u) + " ",
      g + " and chill with " + h + " ! " + Url(u) + " ",
      "Want a new streamer to watch? " + h + " is now live at " + Url(u) + " - come hang out!",
      "Watch " + h + " play " + g + " over on " + Url(u) + " "
    ]
  }

  /** The templates that mention the game. */
  predicate UsesGame(k: TemplateIndex)
  {
    k == 5 || k == 6 || k == 8
  }

  /** The text posted when the chosen template is too long. */
  function Fallback(h: string, u: string): (tweet: string)
    ensures |tweet| == 52 + |h| + |u|
  {
    "Come and watch " + h + " with us over on " + Url(u) + " !"
  }

  /** The announcement for template `k`: the template itself if it fits,
      the fallback otherwise. The fallback is not checked. */
  function ChooseTweet(h: string, u: string, g: string, k: TemplateIndex): (tweet: string)
    ensures FitsTweet(Candidates(h, u, g)[k]) ==> tweet == Candidates(h, u, g)[k]
    ensures !FitsTweet(Candidates(h, u, g)[k]) ==> tweet == Fallback(h, u)
    ensures FitsTweet(tweet) || tweet == Fallback(h, u)
  {
    var tweets := Candidates(h, u, g);
    if FitsTweet(tweets[k]) then tweets[k] else Fallback(h, u)
  }

  /** `"[test]"` in a stream title suppresses the announcement. */
  predicate HasTestMarker(title: string)
  {
    Contains(title, "[test]")
  }

  /** Every template names the streamer and links the channel, and those
      that use the game label show it. */
  lemma {:induction false} CandidateMentions(h: string, u: string, g: string, k: TemplateIndex)
    ensures Contains(Candidates(h, u, g)[k], Url(u))
    ensures Contains(Candidates(h, u, g)[k], h)
    ensures UsesGame(k) ==> Contains(Candidates(h, u, g)[k], g)
  {
    match k
    case 0 =>
      Mentions5("Looking for streams? ", h, " is now live at ", Url(u), " - come and watch!");
    case 1 =>
      Mentions5("Come and watch ", h, " with us over on ", Url(u), " ! ");
    case 2 =>
      Mentions5("Searching for new streams? ", h, " is now live at ", Url(u), " - come say hi!");
    case 3 =>
      Mentions5("Watch ", h, " with us over on ", Url(u), " ! ");
    case 4 =>
      Mentions5("Our friend ", h, " is now live at ", Url(u), " - check out the stream!");
    case 5 =>
      Mentions7("Check out ", h, " live with ", g, " now! ", Url(u), " ");
    case 6 =>
      var a := g + " and chill with ";
      Mentions5(a, h, " ! ", Url(u), " ");
      ContainsSuffix([], g);
      assert [] + g == g;
      ContainsExtend(g, g, " and chill with ");
      ContainsExtend(a, g, h);
      ContainsExtend(a + h, g, " ! ");
      ContainsExtend(a + h + " ! ", g, Url(u));
      ContainsExtend(a + h + " ! " + Url(u), g, " ");
    case 7 =>
      Mentions5("Want a new streamer to watch? ", h, " is now live at ", Url(u), " - come hang out!");
    case 8 =>
      Mentions7("Watch ", h, " play ", g, " over on ", Url(u), " ");
  }

  /** `a + x + b + y + c` contains `x` and `y`. */
  lemma Mentions5(a: string, x: string, b: string, y: string, c: string)
    ensures Contains(a + x + b + y + c, x)
    ensures Contains(a + x + b + y + c, y)
  {
    ContainsSuffix(a, x);
    ContainsExtend(a + x, x, b);
    ContainsExtend(a + x + b, x, y);
    ContainsExtend(a + x + b + y, x, c);
    ContainsSuffix(a + x + b, y);
    ContainsExtend(a + x + b + y, y, c);
  }

  /** `a + x + b + y + c + z + d` contains `x`, `y` and `z`. */
  lemma Mentions7(a: string, x: string, b: string, y: string, c: string, z: string, d: string)
    ensures Contains(a + x + b + y + c + z + d, x)
    ensures Contains(a + x + b + y + c + z + d, y)
    ensures Contains(a + x + b + y + c + z + d, z)
  {
    Mentions5(a, x, b, y, c);
    ContainsExtend(a + x + b + y + c, x, z);
    ContainsExtend(a + x + b + y + c + z, x, d);
    ContainsExtend(a + x + b + y + c, y, z);
    ContainsExtend(a + x + b + y + c + z, y, d);
    ContainsSuffix(a + x + b + y + c, z);
    ContainsExtend(a + x + b + y + c + z, z, d);
  }

  /** The fallback names the streamer and links the channel too. */
  lemma FallbackMentions(h: string, u: string)
    ensures Contains(Fallback(h, u), Url(u))
    ensures Contains(Fallback(h, u), h)
  {
    Mentions5("Come and watch ", h, " with us over on ", Url(u), " !");
  }

  /** Whatever is chosen, the announcement names the streamer and links the
      channel. */
  lemma ChosenTweetMentions(h: string, u: string, g: string, k: TemplateIndex)
    ensures Contains(ChooseTweet(h, u, g, k), Url(u))
    ensures Contains(ChooseTweet(h, u, g, k), h)
  {
    CandidateMentions(h, u, g, k);
    FallbackMentions(h, u);
  }

  /** The fallback is 52 bytes of fixed text around the handle and the user,
      so it fits exactly when those two take at most 88 bytes together;
      nothing bounds them, so the fallback can be over the limit. */
  lemma FallbackFits(h: string, u: string)
    ensures ByteLen(Fallback(h, u)) == 52 + ByteLen(h) + ByteLen(u)
    ensures FitsTweet(Fallback(h, u)) <==> ByteLen(h) + ByteLen(u) <= 88
  {
    FallbackPartsBytes();
    UrlBytes(u);
    ByteLenAppend("Come and watch ", h);
    ByteLenAppend("Come and watch " + h, " with us over on ");
    ByteLenAppend("Come and watch " + h + " with us over on ", Url(u));
    ByteLenAppend("Come and watch " + h + " with us over on " + Url(u), " !");
  }

  lemma FallbackPartsBytes()
    ensures ByteLen("Come and watch ") == 15
    ensures ByteLen(" with us over on ") == 17
    ensures ByteLen(" !") == 2
  {
    LiteralBytes1();
    LiteralBytes2();
    LiteralBytes3();
  }

  // The byte lengths of the fixed pieces, one literal per lemma so that
  // each proof obligation stays small.
  lemma LiteralBytes1()
    ensures ByteLen("Come and watch ") == 15
  {
    AsciiByteLen("Come and watch ");
  }

  lemma LiteralBytes2()
    ensures ByteLen(" with us over on ") == 17
  {
    AsciiByteLen(" with us over on ");
  }

  lemma LiteralBytes3()
    ensures ByteLen(" !") == 2
  {
    AsciiByteLen(" !");
  }

  lemma LiteralBytes4()
    ensures ByteLen(" ") == 1
  {
    AsciiByteLen(" ");
  }

  lemma LiteralBytes5()
    ensures ByteLen("https://twitch.tv/") == 18
  {
    AsciiByteLen("https://twitch.tv/");
  }

  lemma UrlBytes(u: string)
    ensures ByteLen(Url(u)) == 18 + ByteLen(u)
  {
    LiteralBytes5();
    ByteLenAppend("https://twitch.tv/", u);
  }

  /** The fallback is the second template without its trailing space, so it
      is one byte shorter and fits whenever that template does. */
  lemma FallbackIsSecondTemplateTrimmed(h: string, u: string, g: string)
    ensures Candidates(h, u, g)[1] == Fallback(h, u) + " "
    ensures ByteLen(Fallback(h, u)) + 1 == ByteLen(Candidates(h, u, g)[1])
    ensures FitsTweet(Candidates(h, u, g)[1]) ==> FitsTweet(Fallback(h, u))
  {
    var x := "Come and watch " + h + " with us over on " + Url(u);
    assert " ! " == " !" + " ";
    assert x + " ! " == x + " !" + " ";
    ByteLenAppend(Fallback(h, u), " ");
    LiteralBytes4();
  }

  /** There are a handle and a user for which the posted fallback is over
      the limit: the length check does not cover it. */
  lemma FallbackCanOverflow()
    ensures exists h, u :: !FitsTweet(Fallback(h, u))
  {
    var h := seq(89, _ => 'a');
    AsciiByteLen(h);
    FallbackFits(h, "");
  }

  /** When the handle and the user are short enough for the fallback, the
      posted text always fits, whichever template is picked. */
  lemma ShortChannelFits(h: string, u: string, g: string, k: TemplateIndex)
    requires ByteLen(h) + ByteLen(u) <= 88
    ensures FitsTweet(ChooseTweet(h, u, g, k))
  {
    FallbackFits(h, u);
  }
}
