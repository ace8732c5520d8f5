/** The announcer's main loop: for each streamer, one observation per cycle
    moves the `tweeted` flag and decides whether to post. */
module Presence {
  import opened Text
  import opened Roster
  import opened Compose

  /** What the second Twitch request (`getStream`) returned. */
  datatype Fetch = FetchFailed | Fetched(game: string, title: string)

  /** The status `checkOnline` reported, with the stream details fetched
      when the streamer is online and not yet announced. */
  datatype Observation = Offline | Online(fetch: Fetch)

  /** Everything the outside world decides for one streamer in one cycle:
      the observation, the template `rand.Intn(9)` picks, and whether
      posting the tweet succeeds. */
  datatype Poll = Poll(obs: Observation, pick: TemplateIndex, delivered: bool)

  /** What one step does besides moving the flag: nothing, or one post
      attempt with its text and outcome. */
  datatype Action = Quiet | Post(text: string, delivered: bool)

  datatype Option<T> = None | Some(value: T)

  /** The announcement for a streamer whose stream is live with `game` and
      `title`, or `None` when the title carries the test marker. */
  function Announcement(s: Streamer, game: string, title: string, pick: TemplateIndex): (text: Option<string>)
  {
    if HasTestMarker(title) then None
    else Some(ChooseTweet(Handle(s), s.user, ShortGame(game), pick))
  }

  /** The state machine for one streamer, by state and observation: a ready
      streamer (`tweeted` false) seen online with a fetched, unmarked stream
      is announced and becomes suppressed; a suppressed one seen offline
      becomes ready; nothing else changes the flag or posts. Only `tweeted`
      ever changes. */
  function Apply(s: Streamer, p: Poll): (r: (Streamer, Action))
    ensures r.0 == s.(tweeted := r.0.tweeted)
    ensures r.1.Post? ==> !s.tweeted && r.0.tweeted && r.1.delivered == p.delivered
  {
    match p.obs
    case Offline => (s.(tweeted := false), Quiet)
    case Online(FetchFailed) => (s, Quiet)
    case Online(Fetched(game, title)) =>
      if s.tweeted then (s, Quiet)
      else match Announcement(s, game, title, p.pick)
        case None => (s, Quiet)
        case Some(text) => (s.(tweeted := true), Post(text, p.delivered))
  }

  /** One iteration of the inner loop of `main`, for roster index `i`:
      works on a copy of the entry, writes back only the flag of `roster[i]`. */
  method Step(roster: array<Streamer>, i: nat, p: Poll) returns (action: Action)
    requires i < roster.Length
    modifies roster
    ensures roster[..] == old(roster[..])[i := Apply(old(roster[i]), p).0]
    ensures action == Apply(old(roster[i]), p).1
  {
    var streamer := roster[i];
    action := Quiet;
    if p.obs.Online? && streamer.tweeted == false {
      if p.obs.fetch.FetchFailed? {
        return;
      }
      var info := p.obs.fetch;
      if IsNoHandle(streamer.twitter) {
        streamer := streamer.(twitter := streamer.name);
      }
      var game := ShortGame(info.game);
      var tweets := Candidates(streamer.twitter, streamer.user, game);
      var fallback := Fallback(streamer.twitter, streamer.user);
      var randTweet := tweets[p.pick];
      if !HasTestMarker(info.title) {
        if FitsTweet(randTweet) {
          action := Post(randTweet, p.delivered);
          roster[i] := roster[i].(tweeted := true);
        } else {
          action := Post(fallback, p.delivered);
          roster[i] := roster[i].(tweeted := true);
        }
      }
    } else if p.obs.Offline? && streamer.tweeted == true {
      roster[i] := roster[i].(tweeted := false);
    }
  }

  /** The roster after one cycle in which entry `j` sees `polls[j]`. */
  function Round(r: seq<Streamer>, polls: seq<Poll>): (r': seq<Streamer>)
    requires |polls| == |r|
    ensures |r'| == |r|
  {
    seq(|r|, j requires 0 <= j < |r| => Apply(r[j], polls[j]).0)
  }

  /** One pass of the inner loop of `main` over the whole roster. */
  method Cycle(roster: array<Streamer>, polls: seq<Poll>) returns (actions: seq<Action>)
    requires |polls| == roster.Length
    modifies roster
    ensures roster[..] == Round(old(roster[..]), polls)
    ensures |actions| == |polls|
    ensures forall j | 0 <= j < |polls| :: actions[j] == Apply(old(roster[j]), polls[j]).1
  {
    actions := [];
    for i := 0 to roster.Length
      invariant |actions| == i
      invariant forall j | 0 <= j < i :: roster[j] == Apply(old(roster[j]), polls[j]).0
      invariant forall j | 0 <= j < i :: actions[j] == Apply(old(roster[j]), polls[j]).1
      invariant forall j | i <= j < roster.Length :: roster[j] == old(roster[j])
    {
      var a := Step(roster, i, polls[i]);
      actions := actions + [a];
    }
  }

  /** Whether every cycle's polls cover the whole roster. */
  predicate Covers(rounds: seq<seq<Poll>>, n: nat)
  {
    forall m | 0 <= m < |rounds| :: |rounds[m]| == n
  }

  /** The roster after the given cycles, one after the other. */
  function Rounds(r: seq<Streamer>, rounds: seq<seq<Poll>>): (r': seq<Streamer>)
    requires Covers(rounds, |r|)
    ensures |r'| == |r|
    decreases |rounds|
  {
    if rounds == [] then r else Rounds(Round(r, rounds[0]), rounds[1..])
  }

  /** The outer loop of `main`, run for as many cycles as `rounds` holds:
      what it posts for entry `j` in cycle `m` is what that entry's own
      history of polls makes it post at step `m`. */
  method Watch(roster: array<Streamer>, rounds: seq<seq<Poll>>) returns (actions: seq<seq<Action>>)
    requires Covers(rounds, roster.Length)
    modifies roster
    ensures roster[..] == Rounds(old(roster[..]), rounds)
    ensures |actions| == |rounds|
    ensures forall m | 0 <= m < |rounds| :: |actions[m]| == roster.Length
    ensures forall m, j | 0 <= m < |rounds| && 0 <= j < roster.Length ::
      actions[m][j] == Trace(old(roster[..])[j], Column(rounds, roster.Length, j))[m]
  {
    actions := [];
    for m := 0 to |rounds|
      invariant roster[..] == Rounds(old(roster[..]), rounds[..m])
      invariant |actions| == m
      invariant forall m' | 0 <= m' < m :: |actions[m']| == roster.Length
      invariant forall m', j | 0 <= m' < m && 0 <= j < roster.Length ::
        actions[m'][j] == Trace(old(roster[..])[j], Column(rounds, roster.Length, j))[m']
    {
      var acts := Cycle(roster, rounds[m]);
      forall j | 0 <= j < roster.Length
        ensures acts[j] == Trace(old(roster[..])[j], Column(rounds, roster.Length, j))[m]
      {
        WatchAction(old(roster[..]), rounds, m, j);
      }
      RoundsSnoc(old(roster[..]), rounds[..m], rounds[m]);
      assert rounds[..m + 1] == rounds[..m] + [rounds[m]];
      actions := actions + [acts];
    }
    assert rounds[..|rounds|] == rounds;
  }

  /** Running one more cycle after some cycles is one more `Round`. */
  lemma {:induction false} RoundsSnoc(r: seq<Streamer>, rounds: seq<seq<Poll>>, last: seq<Poll>)
    requires Covers(rounds + [last], |r|)
    ensures Covers(rounds, |r|) && |last| == |r|
    ensures Rounds(r, rounds + [last]) == Round(Rounds(r, rounds), last)
    decreases |rounds|
  {
    assert forall m | 0 <= m < |rounds| :: rounds[m] == (rounds + [last])[m];
    assert (rounds + [last])[|rounds|] == last;
    if rounds == [] {
      assert ([] + [last])[1..] == [];
    } else {
      assert (rounds + [last])[1..] == rounds[1..] + [last];
      RoundsSnoc(Round(r, rounds[0]), rounds[1..], last);
    }
  }

  /** What entry `j` does in cycle `m`, started from the roster the first
      `m` cycles left, is step `m` of its own trace. */
  lemma WatchAction(r: seq<Streamer>, rounds: seq<seq<Poll>>, m: nat, j: nat)
    requires Covers(rounds, |r|) && m < |rounds| && j < |r|
    ensures Covers(rounds[..m], |r|)
    ensures Apply(Rounds(r, rounds[..m])[j], rounds[m][j]).1 == Trace(r[j], Column(rounds, |r|, j))[m]
  {
    assert Covers(rounds[..m], |r|);
    RoundsPerStreamer(r, rounds[..m], j);
    assert Column(rounds[..m], |r|, j) == Column(rounds, |r|, j)[..m];
    TraceAt(r[j], Column(rounds, |r|, j), m);
  }

  /** The state of one streamer after a sequence of polls. */
  function After(s: Streamer, polls: seq<Poll>): (s': Streamer)
    ensures s' == s.(tweeted := s'.tweeted)
    decreases |polls|
  {
    if polls == [] then s else After(Apply(s, polls[0]).0, polls[1..])
  }

  /** What one streamer does at each of a sequence of polls. */
  function Trace(s: Streamer, polls: seq<Poll>): (acts: seq<Action>)
    ensures |acts| == |polls|
    decreases |polls|
  {
    if polls == [] then [] else [Apply(s, polls[0]).1] + Trace(Apply(s, polls[0]).0, polls[1..])
  }

  /** The polls entry `j` sees over the given cycles. */
  function Column(rounds: seq<seq<Poll>>, n: nat, j: nat): (polls: seq<Poll>)
    requires Covers(rounds, n) && j < n
    ensures |polls| == |rounds|
  {
    seq(|rounds|, m requires 0 <= m < |rounds| => rounds[m][j])
  }

  /** Entries do not interact: after any number of cycles, entry `j` is what
      its own polls alone make of it. */
  lemma {:induction false} RoundsPerStreamer(r: seq<Streamer>, rounds: seq<seq<Poll>>, j: nat)
    requires Covers(rounds, |r|) && j < |r|
    ensures Rounds(r, rounds)[j] == After(r[j], Column(rounds, |r|, j))
    decreases |rounds|
  {
    if rounds != [] {
      var r1 := Round(r, rounds[0]);
      assert Covers(rounds[1..], |r1|);
      RoundsPerStreamer(r1, rounds[1..], j);
      assert Column(rounds[1..], |r|, j) == Column(rounds, |r|, j)[1..];
    }
  }

  /** A suppressed streamer stays silent for as long as it is seen online:
      in particular a streamer who is live at start-up is not announced
      until it has been seen offline. */
  lemma {:induction false} SilentUntilOffline(s: Streamer, polls: seq<Poll>, j: nat)
    requires s.tweeted && j < |polls|
    requires forall m | 0 <= m <= j :: polls[m].obs.Online?
    ensures Trace(s, polls)[j] == Quiet
    ensures After(s, polls[..j + 1]).tweeted
    decreases j
  {
    var s1 := Apply(s, polls[0]).0;
    assert s1 == s;
    if j > 0 {
      SilentUntilOffline(s1, polls[1..], j - 1);
      assert polls[..j + 1][1..] == polls[1..][..j];
    } else {
      assert polls[..1][1..] == [];
    }
  }

  /** At most one post per run of online observations: after a post at `i`,
      nothing is posted again until the streamer has been seen offline. */
  lemma {:induction false} OnePostPerOnlineRun(s: Streamer, polls: seq<Poll>, i: nat, j: nat)
    requires i < j < |polls|
    requires Trace(s, polls)[i].Post?
    requires forall m | i < m <= j :: polls[m].obs.Online?
    ensures Trace(s, polls)[j] == Quiet
    decreases i
  {
    var s1 := Apply(s, polls[0]).0;
    if i == 0 {
      SilentUntilOffline(s1, polls[1..], j - 1);
    } else {
      OnePostPerOnlineRun(s1, polls[1..], i - 1, j - 1);
    }
  }

  /** Two posts are always separated by an offline observation. */
  lemma PostsSeparatedByOffline(s: Streamer, polls: seq<Poll>, i: nat, j: nat)
    requires i < j < |polls|
    requires Trace(s, polls)[i].Post? && Trace(s, polls)[j].Post?
    ensures exists m :: i < m < j && polls[m].obs == Offline
  {
    if forall m | i < m <= j :: polls[m].obs.Online? {
      OnePostPerOnlineRun(s, polls, i, j);
    } else {
      TraceAt(s, polls, j);
      var m :| i < m <= j && !polls[m].obs.Online?;
      assert m != j;
    }
  }

  /** The action at position `j` of a trace is what the state reached by the
      earlier polls does with poll `j`. */
  lemma {:induction false} TraceAt(s: Streamer, polls: seq<Poll>, j: nat)
    requires j < |polls|
    ensures Trace(s, polls)[j] == Apply(After(s, polls[..j]), polls[j]).1
    decreases j
  {
    if j > 0 {
      TraceAt(Apply(s, polls[0]).0, polls[1..], j - 1);
      assert polls[..j][1..] == polls[1..][..j - 1];
    }
  }

  /** An offline observation re-arms the streamer: if the next observation
      finds it live with a fetched stream whose title has no test marker,
      exactly that observation posts. */
  lemma {:induction false} OfflineRearms(s: Streamer, polls: seq<Poll>, m: nat)
    requires m + 1 < |polls|
    requires polls[m].obs == Offline
    requires polls[m + 1].obs.Online? && polls[m + 1].obs.fetch.Fetched?
    requires !HasTestMarker(polls[m + 1].obs.fetch.title)
    ensures Trace(s, polls)[m] == Quiet
    ensures Trace(s, polls)[m + 1].Post?
    decreases m
  {
    var s1 := Apply(s, polls[0]).0;
    if m > 0 {
      OfflineRearms(s1, polls[1..], m - 1);
    } else {
      assert !s1.tweeted;
    }
  }

  /** A step posts exactly when the streamer is ready, online, its stream
      was fetched and the title carries no test marker; the flag is then
      set whether or not the post was delivered. */
  lemma PostsExactlyWhenReady(s: Streamer, p: Poll)
    ensures Apply(s, p).1.Post? <==>
      !s.tweeted && p.obs.Online? && p.obs.fetch.Fetched? && !HasTestMarker(p.obs.fetch.title)
    ensures Apply(s, p).1.Post? ==> Apply(s, p).0.tweeted
    ensures Apply(s, p).0 == Apply(s, p.(delivered := !p.delivered)).0
  {
  }

  /** The flag moves as the state machine says: an offline observation always
      leaves it false; an online one never clears it; a test marker or a
      failed fetch leaves a ready streamer ready. */
  lemma FlagTransitions(s: Streamer, p: Poll)
    ensures p.obs == Offline ==> !Apply(s, p).0.tweeted && Apply(s, p).1 == Quiet
    ensures p.obs.Online? && s.tweeted ==> Apply(s, p) == (s, Quiet)
    ensures p.obs.Online? && p.obs.fetch.FetchFailed? ==> Apply(s, p) == (s, Quiet)
    ensures p.obs.Online? && p.obs.fetch.Fetched? && HasTestMarker(p.obs.fetch.title) ==>
      Apply(s, p) == (s, Quiet)
  {
  }

  /** A post is the chosen template for the streamer's resolved handle, user
      and shortened game (or the fallback), and it names the handle and links
      the channel. */
  lemma PostedText(s: Streamer, p: Poll)
    requires Apply(s, p).1.Post?
    ensures p.obs.Online? && p.obs.fetch.Fetched?
    ensures Apply(s, p).1.text ==
      ChooseTweet(Handle(s), s.user, ShortGame(p.obs.fetch.game), p.pick)
    ensures Contains(Apply(s, p).1.text, Handle(s))
    ensures Contains(Apply(s, p).1.text, Url(s.user))
  {
    ChosenTweetMentions(Handle(s), s.user, ShortGame(p.obs.fetch.game), p.pick);
  }

  /** A title carrying the test marker has a `[` in it. */
  lemma MarkerNeedsBracket(title: string)
    ensures HasTestMarker(title) ==> exists i :: 0 <= i < |title| && title[i] == '['
  {
    if HasTestMarker(title) {
      ContainsOccurs(title, "[test]");
      var i :| OccursAt(title, "[test]", i);
      assert title[i] == title[i..i + 6][0] == '[';
    }
  }

  lemma ExampleTitleUnmarked()
    ensures !HasTestMarker("ranked grinding")
  {
    MarkerNeedsBracket("ranked grinding");
  }

  /** One live session of a ready streamer: the first online observation
      posts a text naming the handle and linking the channel, a second one is
      silent, and going offline re-arms without posting. */
  lemma OneSession(s: Streamer, game: string, title: string, pick: TemplateIndex, delivered: bool)
    requires !s.tweeted && !HasTestMarker(title)
    ensures var online := Poll(Online(Fetched(game, title)), pick, delivered);
      var (s1, first) := Apply(s, online);
      && first.Post?
      && Contains(first.text, Handle(s))
      && Contains(first.text, Url(s.user))
      && Apply(s1, online) == (s1, Quiet)
      && Apply(s1, Poll(Offline, pick, delivered)) == (s, Quiet)
  {
    PostedText(s, Poll(Online(Fetched(game, title)), pick, delivered));
  }

  /** The walk-through for a roster entry without a Twitter handle, seen
      online playing CS:GO: the post names "Alice", and whichever template
      is picked, what is posted fits in a tweet. */
  lemma AliceExample(pick: TemplateIndex)
    ensures var alice := Streamer("Alice", "alicestream", "", false);
      && Handle(alice) == "Alice"
      && ShortGame("Counter-Strike: Global Offensive") == "#CSGO"
      && FitsTweet(ChooseTweet("Alice", "alicestream", "#CSGO", pick))
  {
    AliceTweetFits("Alice", "alicestream", "#CSGO", pick);
  }

  lemma AliceTweetFits(h: string, u: string, g: string, pick: TemplateIndex)
    requires h == "Alice" && u == "alicestream"
    ensures FitsTweet(ChooseTweet(h, u, g, pick))
  {
    AliceBytes();
    ShortChannelFits(h, u, g, pick);
  }

  lemma AliceBytes()
    ensures ByteLen("Alice") + ByteLen("alicestream") <= 88
  {
    ByteLenBounds("Alice");
    ByteLenBounds("alicestream");
  }

  /** The same session with "[test]" in its title is never announced and
      stays ready. */
  lemma TestMarkerExample(pick: TemplateIndex)
    ensures var alice := Streamer("Alice", "alicestream", "", false);
      var p := Poll(Online(Fetched("Counter-Strike: Global Offensive", "ranked grinding [test]")), pick, true);
      Apply(alice, p) == (alice, Quiet)
  {
    assert OccursAt("ranked grinding [test]", "[test]", 16);
    OccursContains("ranked grinding [test]", "[test]", 16);
  }
}
