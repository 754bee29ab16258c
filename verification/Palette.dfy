/**
  The command palette: which commands a query offers, and in what order.

  `lower`, `isSpace` and `score` stand for `str::to_lowercase`, `char::is_whitespace`
  and the fuzzy matcher.
*/
module Palette {
  import opened Basics
  import opened Sorting
  import opened Tabs

  /** Sort and sub-view commands, which open no dialog, are told apart by a number. */
  datatype Command =
    | Quit | ToggleTreeView | Sort(home: Option<Tab>, column: nat)
    | SwitchTo(tab: Tab) | SwitchToGpu | NextTab | PrevTab
    | OpenFilter | ClearFilter
    | KillProcess | ForceKillProcess | NiceDown | NiceUp
    | StopContainer | KillContainer | RestartContainer
    | ShowHelp | ShowLog | TogglePause | RefreshNow | InspectRow | CopyRowId
    | KubeView(view: nat) | KubeToggleScope
    | KillNamed | StopNamed | RestartNamed | SortBy | FilterBy | SetTheme | GoToTab

  const ALL: seq<Command> := [
    Quit, ToggleTreeView,
    Sort(Some(Processes), 0), Sort(Some(Processes), 1), Sort(Some(Processes), 2),
    Sort(Some(Processes), 3), Sort(Some(Processes), 4), Sort(None, 0), Sort(None, 1),
    SwitchTo(General), SwitchTo(Processes), OpenFilter, NextTab, PrevTab,
    KillProcess, ForceKillProcess, NiceDown, NiceUp, ClearFilter,
    SwitchTo(Network), Sort(Some(Network), 0), Sort(Some(Network), 1), Sort(Some(Network), 2), Sort(Some(Network), 3),
    SwitchTo(Containers), Sort(Some(Containers), 0), Sort(Some(Containers), 1), Sort(Some(Containers), 2),
    Sort(Some(Containers), 3), StopContainer, KillContainer, RestartContainer,
    SwitchTo(Kube), SwitchToGpu, ShowHelp, TogglePause, RefreshNow, ShowLog, InspectRow, CopyRowId,
    KubeView(0), KubeView(1), KubeView(2), KubeToggleScope,
    KillNamed, StopNamed, RestartNamed, SortBy, FilterBy, SetTheme, GoToTab]

  const REMOTE_BLOCKED: seq<Command> := [
    KillProcess, ForceKillProcess, KillNamed, NiceDown, NiceUp, StopContainer, KillContainer, RestartContainer,
    StopNamed, RestartNamed, KubeToggleScope]

  const HISTORY_LEN: nat := 5
  const MAX_SCORE: nat := 65535

  type Lower = string -> string
  type Scorer = (string, Command) -> Option<nat>

  function Verb(c: Command): Option<string> {
    match c
    case KillNamed => Some("kill")
    case StopNamed => Some("stop")
    case RestartNamed => Some("restart")
    case SortBy => Some("sort")
    case FilterBy => Some("filter")
    case SetTheme => Some("theme")
    case GoToTab => Some("tab")
    case _ => None
  }

  predicate IsVerbOnly(c: Command) {
    Verb(c).Some?
  }

  function HomeTab(c: Command): Option<Tab> {
    match c
    case ToggleTreeView | KillProcess | ForceKillProcess | KillNamed | NiceDown | NiceUp => Some(Processes)
    case Sort(home, _) => home
    case StopContainer | KillContainer | RestartContainer | StopNamed | RestartNamed => Some(Containers)
    case KubeView(_) | KubeToggleScope => Some(Kube)
    case _ => None
  }

  // ------------------------------------------------------------- verb forms

  /** The text before and after the first whitespace. */
  function SplitOnce(s: string, isSpace: char -> bool): Option<(string, string)> {
    if s == "" then None
    else if isSpace(s[0]) then Some(("", s[1..]))
    else match SplitOnce(s[1..], isSpace)
         case Some((head, rest)) => Some(([s[0]] + head, rest))
         case None => None
  }

  function Trim(s: string, isSpace: char -> bool): string {
    if s == "" then s
    else if isSpace(s[0]) then Trim(s[1..], isSpace)
    else if isSpace(s[|s| - 1]) then Trim(s[..|s| - 1], isSpace)
    else s
  }

  function Says(verb: string): Command -> bool {
    c => Verb(c) == Some(verb)
  }

  function ParseVerb(input: string, lower: Lower, isSpace: char -> bool): (r: Option<(Command, string)>)
    ensures r.Some? ==> r.value.0 in ALL && IsVerbOnly(r.value.0)
  {
    match SplitOnce(input, isSpace)
    case None => None
    case Some((head, rest)) =>
      match FindFirst(ALL, Says(lower(head)))
      case None => None
      case Some(cmd) => Some((cmd, Trim(rest, isSpace)))
  }

  // ------------------------------------------------------------- the offers

  datatype Offer = Offer(cmd: Command, score: Option<nat>)

  datatype Listing = Listing(offers: seq<Offer>, arg: Option<string>)

  function Recency(history: seq<Command>, c: Command): nat {
    if history == [] then HISTORY_LEN
    else if history[0] == c then 0
    else Min(Recency(history[1..], c) + 1, HISTORY_LEN)
  }

  function Context(c: Command, tab: Tab): nat {
    if HomeTab(c) == Some(tab) then 0 else if HomeTab(c) == None then 1 else 2
  }

  function Bonus(c: Command, tab: Tab): nat {
    if HomeTab(c) == Some(tab) then 24 else if HomeTab(c) == None then 8 else 0
  }

  function Capped(n: nat): nat {
    if n <= MAX_SCORE then n else MAX_SCORE
  }

  function ByRank(history: seq<Command>, tab: Tab): (Command, Command) -> bool {
    (a, b) =>
      var ra, rb := Recency(history, a), Recency(history, b);
      ra < rb || (ra == rb && Context(a, tab) <= Context(b, tab))
  }

  function ByScore(points: Command -> nat): (Command, Command) -> bool {
    (a, b) => points(a) >= points(b)
  }

  function PointsOf(input: string, c: Command, tab: Tab, score: Scorer): nat {
    match score(input, c)
    case Some(n) => Capped(n + Bonus(c, tab))
    case None => 0
  }

  function Points(input: string, tab: Tab, score: Scorer): Command -> nat {
    c => PointsOf(input, c, tab, score)
  }

  predicate Available(c: Command, excluded: seq<Command>) {
    !IsVerbOnly(c) && c !in excluded
  }

  function Candidates(input: string, excluded: seq<Command>, score: Scorer): seq<Command> {
    Filter(ALL, (c: Command) => Available(c, excluded) && (input == "" || score(input, c).Some?))
  }

  function Ranked(input: string, history: seq<Command>, excluded: seq<Command>, tab: Tab, score: Scorer)
    : seq<Command>
  {
    var candidates := Candidates(input, excluded, score);
    if input == "" then StableSort(candidates, ByRank(history, tab))
    else StableSort(candidates, ByScore(Points(input, tab, score)))
  }

  function List(
    input: string, history: seq<Command>, excluded: seq<Command>, tab: Tab,
    lower: Lower, isSpace: char -> bool, score: Scorer): Listing
  {
    match ParseVerb(input, lower, isSpace)
    case Some((cmd, arg)) =>
      if cmd !in excluded then Listing([Offer(cmd, Some(MAX_SCORE))], Some(arg))
      else Listing(Offers(input, Ranked(input, history, excluded, tab, score), tab, score), None)
    case None =>
      Listing(Offers(input, Ranked(input, history, excluded, tab, score), tab, score), None)
  }

  function Offers(input: string, cmds: seq<Command>, tab: Tab, score: Scorer): seq<Offer> {
    seq(|cmds|, i requires 0 <= i < |cmds| =>
          Offer(cmds[i], if input == "" then None else Some(Points(input, tab, score)(cmds[i]))))
  }

  function Commands(offers: seq<Offer>): seq<Command> {
    seq(|offers|, i requires 0 <= i < |offers| => offers[i].cmd)
  }

  /**
    A query that spells an allowed verb offers that command alone, and no other query
    offers a verb command; every other command is offered as often as it is registered,
    exactly when it is allowed and the query is empty or scores it.
  */
  lemma OffersAreExact(
    input: string, history: seq<Command>, excluded: seq<Command>, tab: Tab,
    lower: Lower, isSpace: char -> bool, score: Scorer, c: Command)
    ensures var offered := Commands(List(input, history, excluded, tab, lower, isSpace, score).offers);
            var verb := ParseVerb(input, lower, isSpace);
            multiset(offered)[c] ==
            if verb.Some? && verb.value.0 !in excluded then (if c == verb.value.0 then 1 else 0)
            else if Available(c, excluded) && (input == "" || score(input, c).Some?) then multiset(ALL)[c] else 0
  {
    hide ParseVerb, Available, ALL, Candidates, Offers, Ranked;
    var listing := List(input, history, excluded, tab, lower, isSpace, score);
    var verb := ParseVerb(input, lower, isSpace);
    if verb.Some? && verb.value.0 !in excluded {
      assert Commands(listing.offers) == [verb.value.0];
    } else {
      var ranked := Ranked(input, history, excluded, tab, score);
      CommandsOfOffers(input, ranked, tab, score);
      RankedIsPermutation(input, history, excluded, tab, score);
      CandidatesAreExact(input, excluded, score, c);
    }
  }

  lemma CommandsOfOffers(input: string, cmds: seq<Command>, tab: Tab, score: Scorer)
    ensures Commands(Offers(input, cmds, tab, score)) == cmds
  {
  }

  lemma RankedIsPermutation(input: string, history: seq<Command>, excluded: seq<Command>, tab: Tab, score: Scorer)
    ensures multiset(Ranked(input, history, excluded, tab, score)) == multiset(Candidates(input, excluded, score))
  {
    hide Candidates, ByRank, ByScore;
  }

  lemma CandidatesAreExact(input: string, excluded: seq<Command>, score: Scorer, c: Command)
    ensures multiset(Candidates(input, excluded, score))[c] ==
            if Available(c, excluded) && (input == "" || score(input, c).Some?) then multiset(ALL)[c] else 0
  {
    hide Available;
    FilterCounts(ALL, (d: Command) => Available(d, excluded) && (input == "" || score(input, d).Some?), c);
  }

  /** No query offers an excluded command. */
  lemma ExcludedIsNeverOffered(
    input: string, history: seq<Command>, excluded: seq<Command>, tab: Tab,
    lower: Lower, isSpace: char -> bool, score: Scorer)
    ensures var offers := List(input, history, excluded, tab, lower, isSpace, score).offers;
            forall k :: 0 <= k < |offers| ==> offers[k].cmd in ALL && offers[k].cmd !in excluded
  {
    hide List, ParseVerb, ALL;
    var offers := List(input, history, excluded, tab, lower, isSpace, score).offers;
    forall k | 0 <= k < |offers| ensures offers[k].cmd in ALL && offers[k].cmd !in excluded {
      OffersAreExact(input, history, excluded, tab, lower, isSpace, score, offers[k].cmd);
      assert Commands(offers)[k] in multiset(Commands(offers));
    }
  }

  lemma {:induction false} RecencyOrder(history: seq<Command>, c: Command)
    ensures Recency(history, c) == 0 <==> history != [] && history[0] == c
  {
  }

  lemma ByRankIsTotal(history: seq<Command>, tab: Tab)
    ensures TotalPreorder(ByRank(history, tab))
  {
    hide Recency, Context;
  }

  /**
    On an empty query the command run last is offered first, exactly if it may be
    offered there at all.
  */
  lemma LastRunComesFirst(
    history: seq<Command>, excluded: seq<Command>, tab: Tab, lower: Lower, isSpace: char -> bool, score: Scorer)
    requires history != [] && history[0] in ALL
    ensures var offers := List("", history, excluded, tab, lower, isSpace, score).offers;
            offers != [] && offers[0].cmd == history[0] <==> Available(history[0], excluded)
  {
    hide ALL, Available, Context, Recency, List;
    var offers := List("", history, excluded, tab, lower, isSpace, score).offers;
    var offered := Commands(offers);
    var last := history[0];
    EmptyQueryIsRanked(history, excluded, tab, lower, isSpace, score);
    CandidatesAreExact("", excluded, score, last);
    if offers != [] && offers[0].cmd == last {
      assert offered[0] in multiset(offered);
    }
    if Available(last, excluded) {
      assert last in multiset(ALL);
      assert last in multiset(offered) && last in offered;
      var k :| 0 <= k < |offered| && offered[k] == last;
      ByRankIsTotal(history, tab);
      SortSorts(Candidates("", excluded, score), ByRank(history, tab));
      RecencyOrder(history, last);
      RecencyOrder(history, offered[0]);
      if k > 0 {
        assert ByRank(history, tab)(offered[0], offered[k]);
      }
    }
  }

  lemma EmptyQueryIsRanked(
    history: seq<Command>, excluded: seq<Command>, tab: Tab, lower: Lower, isSpace: char -> bool, score: Scorer)
    ensures var offers := List("", history, excluded, tab, lower, isSpace, score).offers;
            && Commands(offers) == StableSort(Candidates("", excluded, score), ByRank(history, tab))
            && multiset(Commands(offers)) == multiset(Candidates("", excluded, score))
  {
    hide Candidates, ByRank;
    var offers := List("", history, excluded, tab, lower, isSpace, score).offers;
    assert ParseVerb("", lower, isSpace) == None;
    assert Commands(offers) == Ranked("", history, excluded, tab, score);
  }

  // ------------------------------------------------------------ order of offers

  /** How many commands were run since, five if it is not among the recent ones. */
  lemma {:induction false} RecencyIsPosition(history: seq<Command>, c: Command, k: nat)
    requires |history| <= HISTORY_LEN
    ensures k < |history| && history[k] == c && (forall j :: 0 <= j < k ==> history[j] != c) ==> Recency(history, c) == k
    ensures c !in history ==> Recency(history, c) == 5
  {
    if history != [] && history[0] != c {
      RecencyIsPosition(history[1..], c, if k > 0 then k - 1 else 0);
    }
  }

  lemma MatchesAreListed(
    input: string, history: seq<Command>, excluded: seq<Command>, tab: Tab,
    lower: Lower, isSpace: char -> bool, score: Scorer)
    requires input != "" && ParseVerb(input, lower, isSpace) == None
    ensures var offers := List(input, history, excluded, tab, lower, isSpace, score).offers;
            && Commands(offers) == StableSort(Candidates(input, excluded, score), ByScore(Points(input, tab, score)))
            && forall i :: 0 <= i < |offers| ==> offers[i].score == Some(PointsOf(input, offers[i].cmd, tab, score))
  {
    hide ParseVerb, Candidates, PointsOf, ByScore, StableSort;
    CommandsOfOffers(input, Ranked(input, history, excluded, tab, score), tab, score);
  }

  lemma ByScoreIsTotal(points: Command -> nat)
    ensures TotalPreorder(ByScore(points))
  {
  }

  /**
    A query offers its matches by score, best first, a command of the tab in front gaining
    24 and one of no tab 8.
  */
  lemma OffersAreRanked(
    input: string, history: seq<Command>, excluded: seq<Command>, tab: Tab,
    lower: Lower, isSpace: char -> bool, score: Scorer)
    requires input != "" && ParseVerb(input, lower, isSpace) == None
    ensures var offers := List(input, history, excluded, tab, lower, isSpace, score).offers;
            && (forall i, j :: 0 <= i < j < |offers| ==>
                  offers[i].score.Some? && offers[j].score.Some? && offers[i].score.value >= offers[j].score.value)
            && (forall i :: 0 <= i < |offers| && score(input, offers[i].cmd).Some? ==>
                  var base := score(input, offers[i].cmd).value;
                  var home := HomeTab(offers[i].cmd);
                  var bonus := if home == Some(tab) then 24 else if home == None then 8 else 0;
                  offers[i].score == Some(if base + bonus <= 65535 then base + bonus else 65535))
  {
    hide ParseVerb, Candidates, PointsOf, List, HomeTab, StableSort;
    var candidates, leq := Candidates(input, excluded, score), ByScore(Points(input, tab, score));
    var offers := List(input, history, excluded, tab, lower, isSpace, score).offers;
    MatchesAreListed(input, history, excluded, tab, lower, isSpace, score);
    ByScoreIsTotal(Points(input, tab, score));
    SortSorts(candidates, leq);
    forall i, j | 0 <= i < j < |offers|
      ensures PointsOf(input, offers[i].cmd, tab, score) >= PointsOf(input, offers[j].cmd, tab, score)
    {
      assert leq(Commands(offers)[i], Commands(offers)[j]);
    }
    forall i | 0 <= i < |offers| && score(input, offers[i].cmd).Some?
      ensures var base := score(input, offers[i].cmd).value;
              var home := HomeTab(offers[i].cmd);
              var bonus := if home == Some(tab) then 24 else if home == None then 8 else 0;
              offers[i].score == Some(if base + bonus <= 65535 then base + bonus else 65535)
    {
      PointsAre(input, offers[i].cmd, tab, score);
    }
  }

  /** Offers of equal score stay in the order of registration. */
  lemma EqualScoresKeepTheirOrder(
    input: string, history: seq<Command>, excluded: seq<Command>, tab: Tab,
    lower: Lower, isSpace: char -> bool, score: Scorer)
    requires input != "" && ParseVerb(input, lower, isSpace) == None
    ensures TiesKept(
              Commands(List(input, history, excluded, tab, lower, isSpace, score).offers),
              Candidates(input, excluded, score), ByScore(Points(input, tab, score)), false)
  {
    hide ParseVerb, Candidates, PointsOf, List, StableSort, TiesKept;
    var candidates, leq := Candidates(input, excluded, score), ByScore(Points(input, tab, score));
    MatchesAreListed(input, history, excluded, tab, lower, isSpace, score);
    ByScoreIsTotal(Points(input, tab, score));
    SortKeepsTies(candidates, leq);
  }

  lemma PointsAre(input: string, c: Command, tab: Tab, score: Scorer)
    requires score(input, c).Some?
    ensures PointsOf(input, c, tab, score) ==
            var base := score(input, c).value;
            var home := HomeTab(c);
            var bonus := if home == Some(tab) then 24 else if home == None then 8 else 0;
            if base + bonus <= 65535 then base + bonus else 65535
  {
    hide HomeTab;
  }

  /** An empty query offers recent commands first, then those of the tab in front, then those of no tab. */
  lemma EmptyQueryOrder(
    history: seq<Command>, excluded: seq<Command>, tab: Tab, lower: Lower, isSpace: char -> bool, score: Scorer)
    ensures var offers := List("", history, excluded, tab, lower, isSpace, score).offers;
            forall i, j :: 0 <= i < j < |offers| ==>
              var a, b := offers[i].cmd, offers[j].cmd;
              var ra, rb := Recency(history, a), Recency(history, b);
              || ra < rb
              || (ra == rb && (HomeTab(a) == Some(tab)
                               || (HomeTab(a) == None && HomeTab(b) != Some(tab))
                               || (HomeTab(b) != Some(tab) && HomeTab(b) != None)))
  {
    hide List, Candidates, HomeTab, Recency;
    var candidates, leq := Candidates("", excluded, score), ByRank(history, tab);
    EmptyQueryIsRanked(history, excluded, tab, lower, isSpace, score);
    ByRankIsTotal(history, tab);
    SortSorts(candidates, leq);
    var offers := List("", history, excluded, tab, lower, isSpace, score).offers;
    forall i, j | 0 <= i < j < |offers| ensures leq(offers[i].cmd, offers[j].cmd) {
      assert Commands(offers)[i] == offers[i].cmd && Commands(offers)[j] == offers[j].cmd;
    }
  }

  // ------------------------------------------------------------- argument forms

  lemma {:induction false} SplitsAtFirstSpace(head: string, space: char, rest: string, isSpace: char -> bool)
    requires isSpace(space) && forall i :: 0 <= i < |head| ==> !isSpace(head[i])
    ensures SplitOnce(head + [space] + rest, isSpace) == Some((head, rest))
  {
    var s := head + [space] + rest;
    if head == "" {
      assert s[1..] == rest;
    } else {
      SplitsAtFirstSpace(head[1..], space, rest, isSpace);
      assert s[1..] == head[1..] + [space] + rest;
      assert [head[0]] + head[1..] == head;
    }
  }

  lemma {:induction false} NoSpaceNoSplit(s: string, isSpace: char -> bool)
    requires forall i :: 0 <= i < |s| ==> !isSpace(s[i])
    ensures SplitOnce(s, isSpace) == None
  {
    if s != "" {
      NoSpaceNoSplit(s[1..], isSpace);
    }
  }

  lemma VerbsAreKnown()
    ensures KillNamed in ALL && StopNamed in ALL && RestartNamed in ALL && SortBy in ALL
    ensures FilterBy in ALL && SetTheme in ALL && GoToTab in ALL
  {
    var n := |ALL| - 7;
    assert ALL[n] == KillNamed && ALL[n + 1] == StopNamed && ALL[n + 2] == RestartNamed && ALL[n + 3] == SortBy;
    assert ALL[n + 4] == FilterBy && ALL[n + 5] == SetTheme && ALL[n + 6] == GoToTab;
  }

  lemma VerbIsFound(cmd: Command, verb: string)
    requires cmd in ALL && Verb(cmd) == Some(verb)
    ensures FindFirst(ALL, Says(verb)) == Some(cmd)
  {
    hide ALL, Verb, FindFirst;
    var found := FindFirst(ALL, Says(verb));
    var k :| 0 <= k < |ALL| && ALL[k] == cmd;
    assert Says(verb)(ALL[k]);
    assert found.Some?;
    assert Says(verb)(found.value);
    VerbsDiffer(found.value, cmd);
  }

  lemma VerbsDiffer(a: Command, b: Command)
    requires Verb(a).Some? && Verb(a) == Verb(b)
    ensures a == b
  {
    var verb := Verb(a).value;
    assert verb[1] == Verb(b).value[1];
  }

  lemma NoVerbIsFound(verb: string)
    requires forall cmd :: Verb(cmd) != Some(verb)
    ensures FindFirst(ALL, Says(verb)) == None
  {
    hide ALL, Verb;
  }

  lemma VerbsByName(verb: string)
    ensures FindFirst(ALL, Says(verb)) ==
            if verb == "kill" then Some(KillNamed)
            else if verb == "stop" then Some(StopNamed)
            else if verb == "restart" then Some(RestartNamed)
            else if verb == "sort" then Some(SortBy)
            else if verb == "filter" then Some(FilterBy)
            else if verb == "theme" then Some(SetTheme)
            else if verb == "tab" then Some(GoToTab)
            else None
  {
    hide ALL, FindFirst, Says;
    VerbsAreKnown();
    if verb == "kill" { VerbIsFound(KillNamed, verb); }
    else if verb == "stop" { VerbIsFound(StopNamed, verb); }
    else if verb == "restart" { VerbIsFound(RestartNamed, verb); }
    else if verb == "sort" { VerbIsFound(SortBy, verb); }
    else if verb == "filter" { VerbIsFound(FilterBy, verb); }
    else if verb == "theme" { VerbIsFound(SetTheme, verb); }
    else if verb == "tab" { VerbIsFound(GoToTab, verb); }
    else { NoVerbIsFound(verb); }
  }

  /** The seven verbs, by their names in lower case, each with the rest trimmed as its argument; nothing else is a verb. */
  lemma VerbFormsAreRead(head: string, space: char, rest: string, lower: Lower, isSpace: char -> bool)
    requires isSpace(space) && forall i :: 0 <= i < |head| ==> !isSpace(head[i])
    ensures ParseVerb(head + [space] + rest, lower, isSpace) ==
            var arg := Trim(rest, isSpace);
            if lower(head) == "kill" then Some((KillNamed, arg))
            else if lower(head) == "stop" then Some((StopNamed, arg))
            else if lower(head) == "restart" then Some((RestartNamed, arg))
            else if lower(head) == "sort" then Some((SortBy, arg))
            else if lower(head) == "filter" then Some((FilterBy, arg))
            else if lower(head) == "theme" then Some((SetTheme, arg))
            else if lower(head) == "tab" then Some((GoToTab, arg))
            else None
  {
    hide ALL, Trim, FindFirst, Says, SplitOnce, Verb;
    SplitsAtFirstSpace(head, space, rest, isSpace);
    VerbsByName(lower(head));
  }

  /** Trimming takes whitespace off both ends and nothing else. */
  lemma {:induction false} TrimTakesSpaceOnly(s: string, isSpace: char -> bool)
    ensures var t := Trim(s, isSpace);
            && (t != "" ==> !isSpace(t[0]) && !isSpace(t[|t| - 1]))
            && exists i, j :: 0 <= i <= j <= |s| && Between(s, i, j, t, isSpace)
  {
    if s == "" {
      assert Between(s, 0, 0, s, isSpace);
    } else if isSpace(s[0]) {
      TrimTakesSpaceOnly(s[1..], isSpace);
      var t := Trim(s[1..], isSpace);
      var i, j :| 0 <= i <= j <= |s| - 1 && Between(s[1..], i, j, t, isSpace);
      assert s[1..][i..j] == s[i + 1..j + 1];
      assert Between(s, i + 1, j + 1, t, isSpace);
    } else if isSpace(s[|s| - 1]) {
      var n := |s| - 1;
      TrimTakesSpaceOnly(s[..n], isSpace);
      var t := Trim(s[..n], isSpace);
      var i, j :| 0 <= i <= j <= n && Between(s[..n], i, j, t, isSpace);
      assert s[..n][i..j] == s[i..j];
      assert Between(s, i, j, t, isSpace);
    } else {
      assert Between(s, 0, |s|, s, isSpace);
    }
  }

  /** `t` is `s` from `i` to `j`, with whitespace alone around it. */
  ghost predicate Between(s: string, i: nat, j: nat, t: string, isSpace: char -> bool)
    requires i <= j <= |s|
  {
    && t == s[i..j]
    && (forall k :: 0 <= k < i ==> isSpace(s[k]))
    && (forall k :: j <= k < |s| ==> isSpace(s[k]))
  }

  // -------------------------------------------------------------- the state

  function LastRun(history: seq<Command>, cmd: Command): seq<Command> {
    var all_ := [cmd] + Filter(history, (c: Command) => c != cmd);
    if |all_| > HISTORY_LEN then all_[..HISTORY_LEN] else all_
  }

  class PaletteState {
    var input: string
    var selected: nat
    var offers: seq<Offer>
    var arg: Option<string>
    var history: seq<Command>

    /** Recent commands, each once. */
    ghost predicate Valid()
      reads `history
    {
      |history| <= HISTORY_LEN && Distinct(history) && forall k :: 0 <= k < |history| ==> history[k] in ALL
    }

    constructor ()
      ensures Valid() && input == "" && history == []
    {
      input, selected, arg, history := "", 0, None, [];
      offers := Offers("", Filter(ALL, (c: Command) => !IsVerbOnly(c)), General, (i: string, c: Command) => None);
    }

    /** Moves a command to the front of the recent ones. */
    method Remember(cmd: Command)
      requires Valid() && cmd in ALL
      modifies `history
      ensures Valid() && history != [] && history[0] == cmd
      ensures history == LastRun(old(history), cmd)
    {
      hide ALL;
      var others := Filter(history, (c: Command) => c != cmd);
      FilterKeepsDistinct(history, cmd);
      DistinctAppend([cmd], others);
      history := [cmd] + others;
      assert forall k :: 0 < k < |history| ==> history[k] in others;
      if |history| > HISTORY_LEN {
        history := history[..HISTORY_LEN];
      }
    }

    method Refilter(
      excluded: seq<Command>, tab: Tab, lower: Lower, isSpace: char -> bool, score: Scorer)
      modifies `offers, `arg, `selected
      ensures Listing(offers, arg) == List(input, history, excluded, tab, lower, isSpace, score)
      ensures selected == 0 || selected < |offers|
    {
      hide ALL, ParseVerb, Candidates, Offers, ByRank, ByScore, Points, StableSort;
      var verb := ParseVerb(input, lower, isSpace);
      if verb.Some? && verb.value.0 !in excluded {
        arg, offers, selected := Some(verb.value.1), [Offer(verb.value.0, Some(MAX_SCORE))], 0;
        return;
      }
      arg := None;
      var candidates := Candidates(input, excluded, score);
      if input == "" {
        candidates := StableSort(candidates, ByRank(history, tab));
      } else {
        candidates := StableSort(candidates, ByScore(Points(input, tab, score)));
      }
      offers := Offers(input, candidates, tab, score);
      selected := if offers == [] then 0 else Min(selected, |offers| - 1);
    }
  }

  lemma {:induction false} FilterKeepsDistinct(s: seq<Command>, x: Command)
    requires Distinct(s)
    ensures Distinct(Filter(s, (c: Command) => c != x)) && x !in Filter(s, (c: Command) => c != x)
  {
    var p := (c: Command) => c != x;
    if s != [] {
      var n := |s| - 1;
      var front := Filter(s[..n], p);
      FilterKeepsDistinct(s[..n], x);
      if p(s[n]) {
        assert s[n] !in s[..n];
        DistinctAppend(front, [s[n]]);
      } else {
        assert Filter(s, p) == front;
      }
    }
  }
}
