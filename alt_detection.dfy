/** Alt-account scoring: the friends of a target user are scored by six
    fixed-weight heuristics, those scoring at least 4 are kept, ranked by
    score (stable on ties) and cut to the top 10.

    Everything the scoring fetches from the platform arrives through a
    `Platform` value, so the engine itself is a function of its inputs. */
module AltDetection {
  import opened Values
  import Ranking

  /** The fields of a user record the scoring reads (`name`, `description`,
      `created`; a missing field reads as ""). */
  datatype Profile = Profile(name: string, description: string, created: string)

  /** One entry of the friends list. */
  datatype Friend = Friend(id: int, name: string)

  /** What the scoring obtains from the platform and from the libraries it
      calls, as total functions of their arguments. */
  datatype Platform = Platform(
    // the profile request; None when it fails or returns an empty record
    userInfo: int -> Option<Profile>,
    // the friends-count and badges-count requests; None when the request fails
    friendsCount: int -> Option<int>,
    badgesCount: int -> Option<int>,
    // `(a - b).days` for two creation timestamps; None when one does not parse
    daysBetween: (string, string) -> Option<int>,
    // total size of the matching blocks `SequenceMatcher(None, a, b)` finds
    matched: (string, string) -> nat)

  /** The reason strings, one constructor per heuristic, in table order. */
  datatype Reason =
    | CreatedApart(days: nat)
    | SimilarUsername(matched: nat, total: nat)
    | SameBaseUsername
    | SimilarDescription
    | LowFriendCount(count: int)
    | LowBadgeCount(count: int)

  /** A reported candidate (one record of `potential_alts`). */
  datatype AltCandidate = AltCandidate(username: string, id: int, score: int, reasons: seq<Reason>)

  const FriendSample := 50
  const ReportThreshold := 4
  const ReportLimit := 10

  // ---------------------------------------------------------------------
  // String helpers

  /** `str.lower()` on ASCII letters. */
  function Lower(s: string): string
  {
    if s == [] then [] else [LowerChar(s[0])] + Lower(s[1..])
  }

  function LowerChar(c: char): char
  {
    if 'A' <= c <= 'Z' then (c as int - 'A' as int + 'a' as int) as char else c
  }

  /** A character the pattern `[0-9_\-]` removes. */
  predicate IsDecoration(c: char)
  {
    '0' <= c <= '9' || c == '_' || c == '-'
  }

  /** `re.sub(r'[0-9_\-]', '', s)`. */
  function StripDecorations(s: string): string
  {
    if s == [] then []
    else if IsDecoration(s[0]) then StripDecorations(s[1..])
    else [s[0]] + StripDecorations(s[1..])
  }

  /** `s[:50]`. */
  function Take(s: string, n: nat): string
  {
    if |s| <= n then s else s[..n]
  }

  function Abs(n: int): nat
  {
    if n < 0 then -n else n
  }

  /** A count request's value, 0 when the request failed. */
  function CountOrZero(fetched: Option<int>): int
  {
    match fetched
    case Some(c) => c
    case None => 0
  }

  /** `SequenceMatcher(...).ratio() > 0.6`. The ratio is
      `2 * matched / (la + lb)`, and 1.0 when both strings are empty. */
  predicate RatioAbove60(matched: nat, la: nat, lb: nat)
  {
    la + lb == 0 || 10 * matched > 3 * (la + lb)
  }

  /** `SequenceMatcher(...).ratio() > 0.7`. */
  predicate RatioAbove70(matched: nat, la: nat, lb: nat)
  {
    la + lb == 0 || 20 * matched > 7 * (la + lb)
  }

  // ---------------------------------------------------------------------
  // The six heuristics

  /** Check 1: both creation dates present and at most 30 days apart. */
  function DateCheck(user: Profile, info: Profile, p: Platform): Option<Reason>
  {
    if user.created != [] && info.created != [] then
      match p.daysBetween(user.created, info.created)
      case Some(d) => if Abs(d) <= 30 then Some(CreatedApart(Abs(d))) else None
      case None => None
    else None
  }

  /** Check 2: lower-cased usernames more than 60% similar. */
  function NameCheck(user: Profile, friend: Friend, p: Platform): Option<Reason>
  {
    var a, b := Lower(user.name), Lower(friend.name);
    var m := p.matched(a, b);
    if RatioAbove60(m, |a|, |b|) then Some(SimilarUsername(m, |a| + |b|)) else None
  }

  /** Check 3 on two lower-cased names: the same non-empty base name. */
  predicate SameBase(a: string, b: string)
  {
    var x, y := StripDecorations(a), StripDecorations(b);
    x != [] && y != [] && x == y
  }

  function BaseCheck(user: Profile, friend: Friend): Option<Reason>
  {
    if SameBase(Lower(user.name), Lower(friend.name)) then Some(SameBaseUsername) else None
  }

  /** Check 4: both descriptions non-empty and their first 50 lower-cased
      characters more than 70% similar. */
  function DescriptionCheck(user: Profile, info: Profile, p: Platform): Option<Reason>
  {
    var ud, fd := Lower(user.description), Lower(info.description);
    if ud != [] && fd != [] then
      var a, b := Take(ud, 50), Take(fd, 50);
      if RatioAbove70(p.matched(a, b), |a|, |b|) then Some(SimilarDescription) else None
    else None
  }

  /** Check 5: fewer than 10 friends (a failed count reads as 0). */
  function FriendCountCheck(friend: Friend, p: Platform): Option<Reason>
  {
    var c := CountOrZero(p.friendsCount(friend.id));
    if c < 10 then Some(LowFriendCount(c)) else None
  }

  /** Check 6: fewer than 5 badges (a failed count reads as 0). */
  function BadgeCountCheck(friend: Friend, p: Platform): Option<Reason>
  {
    var c := CountOrZero(p.badgesCount(friend.id));
    if c < 5 then Some(LowBadgeCount(c)) else None
  }

  /** The outcome of the six checks for one friend, in table order. */
  datatype Checks = Checks(
    date: Option<Reason>, name: Option<Reason>, base: Option<Reason>,
    description: Option<Reason>, friends: Option<Reason>, badges: Option<Reason>)

  /** The reason each slot can hold. */
  ghost predicate InSlots(c: Checks)
  {
    && (c.date.Some? ==> c.date.value.CreatedApart?)
    && (c.name.Some? ==> c.name.value.SimilarUsername?)
    && (c.base.Some? ==> c.base.value.SameBaseUsername?)
    && (c.description.Some? ==> c.description.value.SimilarDescription?)
    && (c.friends.Some? ==> c.friends.value.LowFriendCount?)
    && (c.badges.Some? ==> c.badges.value.LowBadgeCount?)
  }

  function Evaluate(user: Profile, friend: Friend, info: Profile, p: Platform): (c: Checks)
    ensures InSlots(c)
  {
    Checks(DateCheck(user, info, p), NameCheck(user, friend, p), BaseCheck(user, friend),
           DescriptionCheck(user, info, p), FriendCountCheck(friend, p), BadgeCountCheck(friend, p))
  }

  /** The reason a check contributes to the list: none or one. */
  function Listed(r: Option<Reason>): (rs: seq<Reason>)
    ensures |rs| <= 1
  {
    match r
    case Some(x) => [x]
    case None => []
  }

  /** The reasons of the checks that fire, in table order. */
  function Fired(c: Checks): seq<Reason>
  {
    Listed(c.date) + Listed(c.name) + Listed(c.base)
    + Listed(c.description) + Listed(c.friends) + Listed(c.badges)
  }

  /** The reasons list built for a friend whose profile was fetched. */
  function Reasons(user: Profile, friend: Friend, info: Profile, p: Platform): seq<Reason>
  {
    Fired(Evaluate(user, friend, info, p))
  }

  /** The weight each heuristic adds to the score. */
  function Weight(r: Reason): nat
  {
    match r
    case CreatedApart(_) => 3
    case SimilarUsername(_, _) => 2
    case SameBaseUsername => 3
    case SimilarDescription => 2
    case LowFriendCount(_) => 1
    case LowBadgeCount(_) => 1
  }

  /** The position of the heuristic in the table. */
  function Rank(r: Reason): nat
  {
    match r
    case CreatedApart(_) => 1
    case SimilarUsername(_, _) => 2
    case SameBaseUsername => 3
    case SimilarDescription => 4
    case LowFriendCount(_) => 5
    case LowBadgeCount(_) => 6
  }

  function WeightSum(rs: seq<Reason>): nat
  {
    if rs == [] then 0 else Weight(rs[0]) + WeightSum(rs[1..])
  }

  function Points(r: Option<Reason>, w: nat): nat
  {
    if r.Some? then w else 0
  }

  lemma {:induction false} WeightSumAppend(a: seq<Reason>, b: seq<Reason>)
    ensures WeightSum(a + b) == WeightSum(a) + WeightSum(b)
  {
    if a == [] {
      assert a + b == b;
    } else {
      assert (a + b)[0] == a[0] && (a + b)[1..] == a[1..] + b;
      WeightSumAppend(a[1..], b);
    }
  }

  lemma ListedWeight(r: Option<Reason>)
    ensures WeightSum(Listed(r)) == if r.Some? then Weight(r.value) else 0
  {
    if r.Some? {
      assert Listed(r)[1..] == [];
    }
  }

  /** Scores one friend whose profile was fetched, adding each heuristic's
      weight and appending its reason when it fires. */
  method ScoreFriend(user: Profile, friend: Friend, info: Profile, p: Platform)
    returns (score: int, reasons: seq<Reason>)
    ensures reasons == Reasons(user, friend, info, p)
    ensures score == TableScore(Evaluate(user, friend, info, p))
  {
    ghost var c := Evaluate(user, friend, info, p);
    score, reasons := 0, [];
    if user.created != [] && info.created != [] {
      var diff := p.daysBetween(user.created, info.created);
      if diff.Some? {
        var days := Abs(diff.value);
        if days <= 30 {
          score := score + 3;
          reasons := reasons + [CreatedApart(days)];
        }
      }
    }
    assert c.date == DateCheck(user, info, p);
    ghost var r1, s1 := reasons, score;
    assert r1 == Listed(c.date) && s1 == Points(c.date, 3);

    var userName, friendName := Lower(user.name), Lower(friend.name);
    var m := p.matched(userName, friendName);
    if RatioAbove60(m, |userName|, |friendName|) {
      score := score + 2;
      reasons := reasons + [SimilarUsername(m, |userName| + |friendName|)];
    }
    assert c.name == NameCheck(user, friend, p);
    ghost var r2, s2 := reasons, score;
    assert r2 == r1 + Listed(c.name) && s2 == s1 + Points(c.name, 2);

    var userBase, friendBase := StripDecorations(userName), StripDecorations(friendName);
    if userBase != [] && friendBase != [] && userBase == friendBase {
      score := score + 3;
      reasons := reasons + [SameBaseUsername];
    }
    assert c.base == BaseCheck(user, friend);
    ghost var r3, s3 := reasons, score;
    assert r3 == r2 + Listed(c.base) && s3 == s2 + Points(c.base, 3);

    var userDesc, friendDesc := Lower(user.description), Lower(info.description);
    if userDesc != [] && friendDesc != [] {
      var a, b := Take(userDesc, 50), Take(friendDesc, 50);
      if RatioAbove70(p.matched(a, b), |a|, |b|) {
        score := score + 2;
        reasons := reasons + [SimilarDescription];
      }
    }
    assert c.description == DescriptionCheck(user, info, p);
    ghost var r4, s4 := reasons, score;
    assert r4 == r3 + Listed(c.description) && s4 == s3 + Points(c.description, 2);

    var friendCount := CountOrZero(p.friendsCount(friend.id));
    if friendCount < 10 {
      score := score + 1;
      reasons := reasons + [LowFriendCount(friendCount)];
    }
    assert c.friends == FriendCountCheck(friend, p);
    ghost var r5, s5 := reasons, score;
    assert r5 == r4 + Listed(c.friends) && s5 == s4 + Points(c.friends, 1);

    var badges := CountOrZero(p.badgesCount(friend.id));
    if badges < 5 {
      score := score + 1;
      reasons := reasons + [LowBadgeCount(badges)];
    }
    assert c.badges == BadgeCountCheck(friend, p);
    assert reasons == r5 + Listed(c.badges) && score == s5 + Points(c.badges, 1);
  }

  /** The score of the checks that fire: 3, 2, 3, 2, 1 and 1 points. */
  function TableScore(c: Checks): nat
  {
    Points(c.date, 3) + Points(c.name, 2) + Points(c.base, 3)
    + Points(c.description, 2) + Points(c.friends, 1) + Points(c.badges, 1)
  }

  /** The score is exactly the sum of the weights of the reasons listed:
      every fired check contributes its weight once. */
  lemma ScoreIsGuardedSum(c: Checks)
    requires InSlots(c)
    ensures WeightSum(Fired(c)) == TableScore(c)
  {
    var r1, r2, r3 := Listed(c.date), Listed(c.name), Listed(c.base);
    var r4, r5, r6 := Listed(c.description), Listed(c.friends), Listed(c.badges);
    ListedWeight(c.date); ListedWeight(c.name); ListedWeight(c.base);
    ListedWeight(c.description); ListedWeight(c.friends); ListedWeight(c.badges);
    WeightSumAppend(r1, r2);
    WeightSumAppend(r1 + r2, r3);
    WeightSumAppend(r1 + r2 + r3, r4);
    WeightSumAppend(r1 + r2 + r3 + r4, r5);
    WeightSumAppend(r1 + r2 + r3 + r4 + r5, r6);
  }

  /** Reasons listed in strictly increasing table position, all before `bound`. */
  ghost predicate RankedBelow(rs: seq<Reason>, bound: nat)
    decreases |rs|
  {
    rs == [] || (Rank(rs[|rs| - 1]) < bound && RankedBelow(rs[..|rs| - 1], Rank(rs[|rs| - 1])))
  }

  lemma RankedSnoc(rs: seq<Reason>, r: Option<Reason>, slot: nat)
    requires RankedBelow(rs, slot)
    requires r.Some? ==> Rank(r.value) == slot
    ensures RankedBelow(rs + Listed(r), slot + 1)
  {
    if r.Some? {
      assert (rs + [r.value])[..|rs|] == rs;
    } else {
      assert rs + Listed(r) == rs;
      RankedBelowWeaken(rs, slot, slot + 1);
    }
  }

  lemma RankedBelowWeaken(rs: seq<Reason>, lo: nat, hi: nat)
    requires RankedBelow(rs, lo) && lo <= hi
    ensures RankedBelow(rs, hi)
  {
  }

  /** Ranks strictly increase along the list and stay below the bound. */
  lemma {:induction false} RankedBelowMeaning(rs: seq<Reason>, bound: nat)
    requires RankedBelow(rs, bound)
    ensures forall i :: 0 <= i < |rs| ==> Rank(rs[i]) < bound
    ensures forall i :: 0 < i < |rs| ==> Rank(rs[i - 1]) < Rank(rs[i])
  {
    if rs != [] {
      var init := rs[..|rs| - 1];
      RankedBelowMeaning(init, Rank(rs[|rs| - 1]));
      forall i | 0 <= i < |init| ensures rs[i] == init[i] { }
    }
  }

  lemma FiredRanked(c: Checks)
    requires InSlots(c)
    ensures RankedBelow(Fired(c), 7)
  {
    var p1 := Listed(c.date);
    RankedSnoc([], c.date, 1);
    assert [] + p1 == p1;
    var p2 := p1 + Listed(c.name);
    RankedSnoc(p1, c.name, 2);
    var p3 := p2 + Listed(c.base);
    RankedSnoc(p2, c.base, 3);
    var p4 := p3 + Listed(c.description);
    RankedSnoc(p3, c.description, 4);
    var p5 := p4 + Listed(c.friends);
    RankedSnoc(p4, c.friends, 5);
    var p6 := p5 + Listed(c.badges);
    RankedSnoc(p5, c.badges, 6);
    assert Fired(c) == p6;
  }

  /** One reason per fired check, in the order of the table. */
  lemma ReasonsInTableOrder(c: Checks)
    requires InSlots(c)
    ensures |Fired(c)| <= 6
    ensures forall i :: 0 < i < |Fired(c)| ==> Rank(Fired(c)[i - 1]) < Rank(Fired(c)[i])
  {
    FiredRanked(c);
    RankedBelowMeaning(Fired(c), 7);
  }

  /** The score lies between the number of reasons and 12. */
  lemma ScoreBounds(c: Checks)
    requires InSlots(c)
    ensures |Fired(c)| <= WeightSum(Fired(c)) <= 12
  {
    ScoreIsGuardedSum(c);
    ReasonCountBound(Fired(c));
  }

  lemma {:induction false} ReasonCountBound(rs: seq<Reason>)
    ensures |rs| <= WeightSum(rs)
  {
    if rs != [] {
      ReasonCountBound(rs[1..]);
    }
  }

  // ---------------------------------------------------------------------
  // Properties of single heuristics

  lemma {:induction false} LowerIdempotent(s: string)
    ensures Lower(Lower(s)) == Lower(s)
  {
    if s != [] {
      LowerIdempotent(s[1..]);
      assert Lower(s)[1..] == Lower(s[1..]);
    }
  }

  /** Lower-casing leaves text without capital letters unchanged. */
  lemma {:induction false} LowerKeepsLowercase(s: string)
    requires forall i :: 0 <= i < |s| ==> !('A' <= s[i] <= 'Z')
    ensures Lower(s) == s
  {
    if s != [] {
      LowerKeepsLowercase(s[1..]);
    }
  }

  /** The base-name check ignores letter case and is symmetric in the two
      names. */
  lemma BaseCheckCaseInsensitiveSymmetric(a: string, b: string)
    ensures SameBase(Lower(a), Lower(b)) == SameBase(Lower(b), Lower(a))
    ensures SameBase(Lower(Lower(a)), Lower(b)) == SameBase(Lower(a), Lower(b))
  {
    LowerIdempotent(a);
  }

  /** The username check depends only on the matched count, so it is
      symmetric whenever the matcher reports the same count both ways. */
  lemma NameCheckSymmetric(user: Profile, friend: Friend, p: Platform)
    requires p.matched(Lower(user.name), Lower(friend.name)) == p.matched(Lower(friend.name), Lower(user.name))
    ensures NameCheck(user, friend, p).Some?
            == NameCheck(Profile(friend.name, user.description, user.created), Friend(friend.id, user.name), p).Some?
  {
  }

  /** Two identical names (every character matched) always pass the
      username check. */
  lemma IdenticalNamesAreSimilar(user: Profile, friend: Friend, p: Platform)
    requires Lower(user.name) == Lower(friend.name)
    requires p.matched(Lower(user.name), Lower(friend.name)) == |Lower(user.name)|
    ensures NameCheck(user, friend, p).Some?
  {
  }

  /** A friend whose count requests both fail is credited with the two
      low-activity checks. */
  lemma FailedCountsScoreAsLowActivity(friend: Friend, p: Platform)
    requires p.friendsCount(friend.id).None? && p.badgesCount(friend.id).None?
    ensures FriendCountCheck(friend, p) == Some(LowFriendCount(0))
    ensures BadgeCountCheck(friend, p) == Some(LowBadgeCount(0))
  {
  }

  lemma {:induction false} StripAppend(a: string, b: string)
    ensures StripDecorations(a + b) == StripDecorations(a) + StripDecorations(b)
  {
    if a == [] {
      assert a + b == b;
    } else {
      assert (a + b)[0] == a[0] && (a + b)[1..] == a[1..] + b;
      StripAppend(a[1..], b);
    }
  }

  lemma {:induction false} StripAllDecorations(s: string)
    requires forall i :: 0 <= i < |s| ==> IsDecoration(s[i])
    ensures StripDecorations(s) == []
  {
    if s != [] {
      StripAllDecorations(s[1..]);
    }
  }

  /** A name followed by digits, underscores or hyphens ("john_doe" and
      "john_doe2") shares its base with the name itself, whenever that base
      is not empty. */
  lemma DecoratedVariantSharesBase(name: string, suffix: string)
    requires StripDecorations(name) != []
    requires forall i :: 0 <= i < |suffix| ==> IsDecoration(suffix[i])
    ensures SameBase(name, name + suffix)
  {
    StripAppend(name, suffix);
    StripAllDecorations(suffix);
    assert StripDecorations(name) + [] == StripDecorations(name);
  }

  lemma TwinNamesLower()
    ensures Lower("john_doe") == "john_doe" && Lower("john_doe2") == "john_doe2"
  {
    var a, b := "john_doe", "john_doe2";
    forall i | 0 <= i < |b| ensures !('A' <= b[i] <= 'Z') {
      if i < |a| {
        assert b[i] == a[i];
      }
    }
    LowerKeepsLowercase(a);
    LowerKeepsLowercase(b);
  }

  lemma TwinNames()
    ensures Lower("john_doe") == "john_doe" && Lower("john_doe2") == "john_doe2"
    ensures SameBase("john_doe", "john_doe2")
  {
    TwinNamesLower();
    var name := "john_doe";
    assert name == "j" + name[1..];
    DecoratedVariantSharesBase(name, "2");
    assert "john_doe2" == name + "2";
  }

  /** Accounts "john_doe" and "john_doe2", created 10 days apart, with no
      description and few friends and badges: every check but the
      description one fires. The username check fires as well, since all
      8 characters of "john_doe" match (ratio 16/17), so the score is
      3 + 2 + 3 + 1 + 1 = 10 with five reasons. */
  lemma DecoratedTwinScenario(user: Profile, friend: Friend, info: Profile, p: Platform)
    requires user.name == "john_doe" && friend.name == "john_doe2" && user.description == []
    requires user.created != [] && info.created != []
    requires p.daysBetween(user.created, info.created) == Some(-10)
    requires p.matched("john_doe", "john_doe2") == 8
    requires p.friendsCount(friend.id) == Some(3) && p.badgesCount(friend.id).None?
    ensures Reasons(user, friend, info, p)
      == [CreatedApart(10), SimilarUsername(8, 17), SameBaseUsername, LowFriendCount(3), LowBadgeCount(0)]
    ensures WeightSum(Reasons(user, friend, info, p)) == 10
  {
    TwinNames();
    var c := Evaluate(user, friend, info, p);
    assert c == Checks(
      Some(CreatedApart(10)), Some(SimilarUsername(8, 17)), Some(SameBaseUsername),
      None, Some(LowFriendCount(3)), Some(LowBadgeCount(0)));
    ScoreIsGuardedSum(c);
  }

  // ---------------------------------------------------------------------
  // The candidate pipeline

  /** The candidate record a friend yields: none when the profile fetch
      fails or the score stays below the threshold. */
  function Entry(user: Profile, friend: Friend, p: Platform): seq<AltCandidate>
  {
    match p.userInfo(friend.id)
    case None => []
    case Some(info) =>
      var rs := Reasons(user, friend, info, p);
      if WeightSum(rs) >= ReportThreshold
      then [AltCandidate(friend.name, friend.id, WeightSum(rs), rs)]
      else []
  }

  /** `potential_alts` after the loop over `friends`. */
  function Candidates(user: Profile, friends: seq<Friend>, p: Platform): seq<AltCandidate>
  {
    if friends == [] then []
    else Candidates(user, friends[..|friends| - 1], p) + Entry(user, friends[|friends| - 1], p)
  }

  function ScoreKey(c: AltCandidate): int
  {
    c.score
  }

  /** The friends examined: the first 50, in list order. */
  function Sample(friends: seq<Friend>): (r: seq<Friend>)
    ensures r <= friends
    ensures |r| == if |friends| <= FriendSample then |friends| else FriendSample
  {
    if |friends| <= FriendSample then friends else friends[..FriendSample]
  }

  function Top(s: seq<AltCandidate>): seq<AltCandidate>
  {
    if |s| <= ReportLimit then s else s[..ReportLimit]
  }

  /** The list `detect_alt_accounts` returns, given the friends response
      (None when the request did not answer 200). */
  function AltReport(user: Profile, friendsResponse: Option<seq<Friend>>, p: Platform): seq<AltCandidate>
  {
    match friendsResponse
    case None => []
    case Some(friends) => Top(Ranking.SortDesc(Candidates(user, Sample(friends), p), ScoreKey))
  }

  /** Scores the first 50 friends, keeps those scoring at least 4, sorts
      them by descending score and returns the first 10. */
  method DetectAltAccounts(user: Profile, friendsResponse: Option<seq<Friend>>, p: Platform)
    returns (alts: seq<AltCandidate>)
    ensures alts == AltReport(user, friendsResponse, p)
    ensures |alts| <= ReportLimit
    ensures forall i :: 0 <= i < |alts| ==> alts[i].score >= ReportThreshold
    ensures forall i, j :: 0 <= i < j < |alts| ==> alts[i].score >= alts[j].score
  {
    if friendsResponse.None? {
      return [];
    }
    var friends := friendsResponse.value;
    if friends == [] {
      return [];
    }
    var examined := Sample(friends);
    var potential: seq<AltCandidate> := [];
    for i := 0 to |examined|
      invariant potential == Candidates(user, examined[..i], p)
    {
      var friend := examined[i];
      assert examined[..i + 1][..i] == examined[..i];
      var info := p.userInfo(friend.id);
      if info.None? {
        continue;
      }
      var score, reasons := ScoreFriend(user, friend, info.value, p);
      ScoreIsGuardedSum(Evaluate(user, friend, info.value, p));
      if score >= ReportThreshold {
        potential := potential + [AltCandidate(friend.name, friend.id, score, reasons)];
      }
      assert Entry(user, friend, p) == if score >= ReportThreshold
        then [AltCandidate(friend.name, friend.id, score, reasons)] else [];
    }
    assert examined[..|examined|] == examined;
    potential := Ranking.SortDesc(potential, ScoreKey);
    alts := Top(potential);
    AltReportProperties(user, friendsResponse, p);
  }

  // ---------------------------------------------------------------------
  // Properties of the pipeline

  lemma {:induction false} CandidatesAppend(user: Profile, a: seq<Friend>, b: seq<Friend>, p: Platform)
    ensures Candidates(user, a + b, p) == Candidates(user, a, p) + Candidates(user, b, p)
  {
    if b == [] {
      assert a + b == a;
    } else {
      var b0 := b[..|b| - 1];
      assert (a + b)[..|a + b| - 1] == a + b0;
      assert (a + b)[|a + b| - 1] == b[|b| - 1];
      CandidatesAppend(user, a, b0, p);
    }
  }

  /** Every candidate comes from one examined friend with a fetched profile,
      carries that friend's reasons, and its score is their weight sum and
      at least 4. */
  lemma {:induction false} CandidatesSound(user: Profile, friends: seq<Friend>, p: Platform, k: nat)
    requires k < |Candidates(user, friends, p)|
    ensures var c := Candidates(user, friends, p)[k];
      exists i :: 0 <= i < |friends| && friends[i].id == c.id && friends[i].name == c.username
        && p.userInfo(c.id).Some?
        && c.reasons == Reasons(user, friends[i], p.userInfo(c.id).value, p)
        && c.score == WeightSum(c.reasons) >= ReportThreshold
  {
    var init := friends[..|friends| - 1];
    var prev := Candidates(user, init, p);
    if k < |prev| {
      CandidatesSound(user, init, p, k);
      var c := prev[k];
      var i :| 0 <= i < |init| && init[i].id == c.id && init[i].name == c.username
        && p.userInfo(c.id).Some?
        && c.reasons == Reasons(user, init[i], p.userInfo(c.id).value, p)
        && c.score == WeightSum(c.reasons) >= ReportThreshold;
      assert friends[i] == init[i];
    } else {
      assert Candidates(user, friends, p)[k] == Entry(user, friends[|friends| - 1], p)[0];
    }
  }

  /** Every examined friend whose profile was fetched and whose score
      reaches 4 is a candidate. */
  lemma {:induction false} CandidatesComplete(user: Profile, friends: seq<Friend>, p: Platform, i: nat)
    requires i < |friends| && p.userInfo(friends[i].id).Some?
    requires WeightSum(Reasons(user, friends[i], p.userInfo(friends[i].id).value, p)) >= ReportThreshold
    ensures var rs := Reasons(user, friends[i], p.userInfo(friends[i].id).value, p);
      AltCandidate(friends[i].name, friends[i].id, WeightSum(rs), rs) in Candidates(user, friends, p)
  {
    assert friends == friends[..i] + [friends[i]] + friends[i + 1..];
    CandidatesAppend(user, friends[..i] + [friends[i]], friends[i + 1..], p);
    CandidatesAppend(user, friends[..i], [friends[i]], p);
    assert [friends[i]][..0] == [];
  }

  lemma CandidatesSingle(user: Profile, x: Friend, p: Platform)
    ensures Candidates(user, [x], p) == Entry(user, x, p)
  {
    assert [x][..0] == [];
  }

  /** A friend whose profile fetch fails is dropped and the others are
      scored as if it had never been in the list. */
  lemma SkippedFriendChangesNothing(user: Profile, friends: seq<Friend>, p: Platform, k: nat)
    requires k < |friends| && p.userInfo(friends[k].id).None?
    ensures Candidates(user, friends, p) == Candidates(user, friends[..k] + friends[k + 1..], p)
  {
    var a, x, b := friends[..k], friends[k], friends[k + 1..];
    assert friends == (a + [x]) + b;
    assert Entry(user, x, p) == [];
    CandidatesSingle(user, x, p);
    CandidatesAppend(user, a + [x], b, p);
    CandidatesAppend(user, a, [x], p);
    CandidatesAppend(user, a, b, p);
    assert Candidates(user, a + [x], p) == Candidates(user, a, p);
  }

  /** The report holds at most 10 candidates, all scoring at least 4, in
      non-increasing score order; a failed or empty friends request yields
      nothing. */
  lemma AltReportProperties(user: Profile, friendsResponse: Option<seq<Friend>>, p: Platform)
    ensures var r := AltReport(user, friendsResponse, p);
      && |r| <= ReportLimit
      && (forall i :: 0 <= i < |r| ==> r[i].score >= ReportThreshold)
      && (forall i, j :: 0 <= i < j < |r| ==> r[i].score >= r[j].score)
      && (friendsResponse == None || friendsResponse == Some([]) ==> r == [])
  {
    if friendsResponse.Some? {
      var cands := Candidates(user, Sample(friendsResponse.value), p);
      var sorted := Ranking.SortDesc(cands, ScoreKey);
      Ranking.SortDescProperties(cands, ScoreKey);
      var r := AltReport(user, friendsResponse, p);
      assert r == Top(sorted);
      forall i | 0 <= i < |r| ensures r[i].score >= ReportThreshold {
        assert r[i] in multiset(sorted);
        assert r[i] in multiset(cands);
        var k :| 0 <= k < |cands| && cands[k] == r[i];
        CandidatesSound(user, Sample(friendsResponse.value), p, k);
      }
      forall i, j | 0 <= i < j < |r| ensures r[i].score >= r[j].score {
        assert r[i] == sorted[i] && r[j] == sorted[j];
        assert ScoreKey(sorted[i]) >= ScoreKey(sorted[j]);
      }
    }
  }

  /** Candidates with equal scores keep their friend-list order: for every
      score, the report lists its candidates in the order of the friends
      list (up to the cut at 10). */
  lemma TiesKeepFriendOrder(user: Profile, friends: seq<Friend>, p: Platform, score: int)
    ensures var sorted := Ranking.SortDesc(Candidates(user, Sample(friends), p), ScoreKey);
      Ranking.WithKey(sorted, ScoreKey, score)
      == Ranking.WithKey(Candidates(user, Sample(friends), p), ScoreKey, score)
  {
    Ranking.SortDescProperties(Candidates(user, Sample(friends), p), ScoreKey);
  }
}
