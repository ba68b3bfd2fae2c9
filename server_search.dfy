/** The presence gate and the server matcher of the "search user in servers"
    action: confirm that the user is in the queried universe, then try, for
    every public server, the player tokens, an embedded player list and a
    separately fetched roster, in that order; report the servers that matched,
    or the first 10 servers when none did. */
module ServerSearch {
  import opened Values

  /** An entry of a player list: a record read through `player.get(...)`,
      or a bare value that is not a record. */
  datatype Player = Record(fields: map<string, Value>) | Bare(value: Value)

  /** One entry of the public server list, with the fields the matcher
      reads; a missing key reads as `Null` or as an empty list. */
  datatype Server = Server(id: Value, token: Value, playerTokens: seq<Value>, players: seq<Player>)

  /** A record of the presence response. */
  datatype PresenceRecord = PresenceRecord(userPresenceType: Value, universeId: Value)

  /** The verdict of a strategy, or of all of them, on one server. A `Crash`
      is an exception that ends the whole search. */
  datatype Probe = Hit | Miss | Crash

  /** What the search reports. */
  datatype Outcome =
    | UserNotFound                           // the username did not resolve
    | NoServers                              // the server list is empty or could not be fetched
    | NotPlaying                             // presence does not confirm the queried universe
    | Found(servers: seq<Server>)            // the servers in which the user was found, in list order
    | Shortlist(shown: seq<Server>, more: nat)  // presence confirmed, no server matched
    | Failed                                 // an exception reached the search's handler

  const ShortlistSize := 10

  // ---------------------------------------------------------------------
  // Presence gate

  /** `check_user_presence_in_game(...)` is truthy: the request succeeded, it
      returned at least one record, and the first record's `str(universeId)`
      equals the universe text as typed. */
  predicate InGame(presence: Option<seq<PresenceRecord>>, universe: string)
  {
    presence.Some? && presence.value != [] && Text(presence.value[0].universeId) == universe
  }

  /** For a numeric universe id, presence is confirmed exactly when it names
      the queried universe; a failed or empty presence response never
      confirms it, and the presence type plays no part. */
  lemma InGameMeansSameUniverse(presence: Option<seq<PresenceRecord>>, id: int, queried: int)
    requires presence.Some? && presence.value != [] && presence.value[0].universeId == Int(id)
    ensures InGame(presence, IntToString(queried)) <==> id == queried
    ensures !InGame(None, IntToString(queried)) && !InGame(Some([]), IntToString(queried))
    ensures forall t :: InGame(Some([PresenceRecord(t, Int(id))]), IntToString(queried)) <==> id == queried
  {
    IntToStringInjective(id, queried);
  }

  // ---------------------------------------------------------------------
  // Strategy 1: player tokens

  /** The value `isinstance(token, int)` sees: ints, and bools as 0 and 1. */
  function IntView(token: Value): Option<int>
  {
    match token
    case Int(n) => Some(n)
    case Bool(b) => Some(if b then 1 else 0)
    case _ => None
  }

  /** The test of one token against the user id, branch by branch: an int
      equal to the id; a digit string, compared by value only; otherwise
      the two `str()` texts. */
  predicate TokenMatches(token: Value, userId: int)
  {
    if IntView(token).Some? && IntView(token).value == userId then true
    else if token.Str? && IsDigits(token.s) then DigitsValue(token.s) == userId
    else Text(token) == IntToString(userId)
  }

  /** `resolve_player_token`: the integer of an int or string token whose
      `str()` text is a digit string, and None for anything else. */
  function ResolveToken(token: Value): (r: Option<int>)
    ensures r.Some? <==> (token.Int? || token.Str?) && IsDigits(Text(token))
    ensures r.Some? ==> r.value == DigitsValue(Text(token))
  {
    match token
    case Int(n) =>
      IntToStringDigits(n);
      if n >= 0 then NatToStringRoundTrip(n); Some(n) else None
    case Str(s) => if IsDigits(s) then Some(DigitsValue(s)) else None
    case _ => None
  }

  /** For a non-negative user id, a token matches exactly when it resolves
      to the id, or is a bool equal to it as an int, or is some other value
      whose text is the id's decimal text. */
  lemma TokenMatchesCharacterized(token: Value, userId: int)
    requires userId >= 0
    ensures TokenMatches(token, userId) <==>
      || ResolveToken(token) == Some(userId)
      || (token.Bool? && IntView(token) == Some(userId))
      || (token.Other? && token.text == IntToString(userId))
  {
    IntToStringDigits(userId);
    match token
    case Int(n) =>
      IntToStringInjective(n, userId);
    case Str(s) =>
      if !IsDigits(s) && s == IntToString(userId) {
        assert false;
      }
    case Bool(b) =>
      assert !IsDigitChar(Text(token)[0]);
    case Null =>
      assert !IsDigitChar(Text(token)[0]);
    case Other(_, _) =>
  }

  /** The fallback through `resolve_player_token`, taken when a comparison
      raises, would accept no token the direct comparisons reject. */
  lemma ResolutionAddsNoMatch(token: Value, userId: int)
    requires ResolveToken(token).Some? && ResolveToken(token).value != 0
    requires ResolveToken(token).value == userId
    ensures TokenMatches(token, userId)
  {
    TokenMatchesCharacterized(token, userId);
  }

  /** Scans the token list and stops at the first token that matches. */
  method MatchTokens(tokens: seq<Value>, userId: int) returns (found: bool)
    ensures found <==> exists i :: 0 <= i < |tokens| && TokenMatches(tokens[i], userId)
  {
    found := false;
    var i := 0;
    while i < |tokens|
      invariant 0 <= i <= |tokens|
      invariant forall j :: 0 <= j < i ==> !TokenMatches(tokens[j], userId)
    {
      var token := tokens[i];
      var asInt := IntView(token);
      if asInt.Some? && asInt.value == userId {
        found := true;
        break;
      } else if token.Str? && IsDigits(token.s) {
        if DigitsValue(token.s) == userId {
          found := true;
          break;
        }
      } else if Text(token) == IntToString(userId) {
        found := true;
        break;
      }
      i := i + 1;
    }
  }

  // ---------------------------------------------------------------------
  // Strategies 2 and 3: player lists

  function Get(fields: map<string, Value>, key: string): Value
  {
    if key in fields then fields[key] else Null
  }

  /** Python's `a or b or ...`: the first truthy value, else the last one. */
  function FirstTruthy(vs: seq<Value>): (r: Value)
    requires vs != []
    ensures Truthy(r) <==> exists i :: 0 <= i < |vs| && Truthy(vs[i])
    ensures Truthy(r) ==> exists i :: 0 <= i < |vs| && r == vs[i]
                           && forall j :: 0 <= j < i ==> !Truthy(vs[j])
  {
    if |vs| == 1 || Truthy(vs[0]) then vs[0]
    else
      var r := FirstTruthy(vs[1..]);
      assert Truthy(r) ==> exists i :: 1 <= i < |vs| && r == vs[i] && forall j :: 0 <= j < i ==> !Truthy(vs[j]) by {
        if Truthy(r) {
          var i :| 0 <= i < |vs[1..]| && r == vs[1..][i] && forall j :: 0 <= j < i ==> !Truthy(vs[1..][j]);
          assert r == vs[i + 1];
          forall j | 0 <= j < i + 1 ensures !Truthy(vs[j]) {
            if j > 0 {
              assert vs[j] == vs[1..][j - 1];
            }
          }
        }
      }
      r
  }

  /** The keys under which a player record may carry the user id. */
  const IdKeys: seq<string> := ["id", "userId", "user_id", "Id"]

  /** `player.get('id') or player.get('userId') or player.get('user_id') or player.get('Id')`. */
  function RecordId(fields: map<string, Value>): Value
  {
    FirstTruthy([Get(fields, "id"), Get(fields, "userId"), Get(fields, "user_id"), Get(fields, "Id")])
  }

  /** `player_id and str(player_id) == str(user_id)`. */
  predicate IdMatches(id: Value, userId: int)
  {
    Truthy(id) && Text(id) == IntToString(userId)
  }

  /** For a user id other than 0, a player id matches exactly when it is
      that int, its decimal string, or another value with the same text;
      a bool or a missing id never matches. */
  lemma IdMatchesCharacterized(id: Value, userId: int)
    requires userId != 0
    ensures IdMatches(id, userId) <==>
      || id == Int(userId)
      || id == Str(IntToString(userId))
      || (id.Other? && id.truthy && id.text == IntToString(userId))
  {
    var t := IntToString(userId);
    assert t[0] == '-' || IsDigitChar(t[0]);
    match id
    case Int(n) => IntToStringInjective(n, userId);
    case Bool(b) => assert Text(id)[0] == (if b then 'T' else 'F');
    case Null => assert Text(id)[0] == 'N';
    case Str(_) =>
    case Other(_, _) =>
  }

  /** A record matches when its first truthy id field has the user id's text. */
  lemma RecordIdMatches(fields: map<string, Value>, userId: int)
    ensures IdMatches(RecordId(fields), userId) <==>
      exists k :: 0 <= k < |IdKeys| && Truthy(Get(fields, IdKeys[k]))
        && Text(Get(fields, IdKeys[k])) == IntToString(userId)
        && forall j :: 0 <= j < k ==> !Truthy(Get(fields, IdKeys[j]))
  {
    var vs := [Get(fields, "id"), Get(fields, "userId"), Get(fields, "user_id"), Get(fields, "Id")];
    assert forall k :: 0 <= k < 4 ==> vs[k] == Get(fields, IdKeys[k]);
    var r := RecordId(fields);
    if IdMatches(r, userId) {
      var i :| 0 <= i < |vs| && r == vs[i] && forall j :: 0 <= j < i ==> !Truthy(vs[j]);
      assert Truthy(Get(fields, IdKeys[i]));
    } else {
      forall k | 0 <= k < |IdKeys| && Truthy(Get(fields, IdKeys[k]))
        && forall j :: 0 <= j < k ==> !Truthy(Get(fields, IdKeys[j]))
        ensures Text(Get(fields, IdKeys[k])) != IntToString(userId)
      {
        var i :| 0 <= i < |vs| && r == vs[i] && forall j :: 0 <= j < i ==> !Truthy(vs[j]);
        assert i == k;
      }
    }
  }

  /** The embedded list (strategy 2), scanned in order: a matching record
      ends the scan with a hit, and an entry that is not a record raises
      (it has no `get`), ending the whole search. */
  function EmbeddedProbe(players: seq<Player>, userId: int): Probe
  {
    if players == [] then Miss
    else match players[0]
      case Bare(_) => Crash
      case Record(f) => if IdMatches(RecordId(f), userId) then Hit else EmbeddedProbe(players[1..], userId)
  }

  predicate RecordHit(p: Player, userId: int)
  {
    p.Record? && IdMatches(RecordId(p.fields), userId)
  }

  /** The embedded list hits exactly when a matching record comes before any
      entry that is not a record. */
  lemma {:induction false} EmbeddedHitMeaning(players: seq<Player>, userId: int)
    ensures EmbeddedProbe(players, userId) == Hit <==>
      exists i :: 0 <= i < |players| && RecordHit(players[i], userId)
        && forall j :: 0 <= j < i ==> players[j].Record?
  {
    if players != [] && players[0].Record? && !RecordHit(players[0], userId) {
      var rest := players[1..];
      EmbeddedHitMeaning(rest, userId);
      if EmbeddedProbe(players, userId) == Hit {
        var i :| 0 <= i < |rest| && RecordHit(rest[i], userId) && forall j :: 0 <= j < i ==> rest[j].Record?;
        assert players[i + 1] == rest[i];
        forall j | 0 <= j < i + 1 ensures players[j].Record? {
          if j > 0 { assert players[j] == rest[j - 1]; }
        }
      }
      if exists i :: 0 <= i < |players| && RecordHit(players[i], userId) && forall j :: 0 <= j < i ==> players[j].Record? {
        var i :| 0 <= i < |players| && RecordHit(players[i], userId) && forall j :: 0 <= j < i ==> players[j].Record?;
        assert i > 0 && rest[i - 1] == players[i];
        forall j | 0 <= j < i - 1 ensures rest[j].Record? {
          assert rest[j] == players[j + 1];
        }
      }
    }
  }

  /** The embedded list aborts the search exactly when an entry that is not
      a record comes before any matching record. */
  lemma {:induction false} EmbeddedCrashMeaning(players: seq<Player>, userId: int)
    ensures EmbeddedProbe(players, userId) == Crash <==>
      exists i :: 0 <= i < |players| && players[i].Bare?
        && forall j :: 0 <= j < i ==> !RecordHit(players[j], userId)
  {
    if players != [] && players[0].Record? && !RecordHit(players[0], userId) {
      var rest := players[1..];
      EmbeddedCrashMeaning(rest, userId);
      if EmbeddedProbe(players, userId) == Crash {
        var i :| 0 <= i < |rest| && rest[i].Bare? && forall j :: 0 <= j < i ==> !RecordHit(rest[j], userId);
        assert players[i + 1] == rest[i];
        forall j | 0 <= j < i + 1 ensures !RecordHit(players[j], userId) {
          if j > 0 { assert players[j] == rest[j - 1]; }
        }
      }
      if exists i :: 0 <= i < |players| && players[i].Bare? && forall j :: 0 <= j < i ==> !RecordHit(players[j], userId) {
        var i :| 0 <= i < |players| && players[i].Bare? && forall j :: 0 <= j < i ==> !RecordHit(players[j], userId);
        assert i > 0 && rest[i - 1] == players[i];
        forall j | 0 <= j < i - 1 ensures !RecordHit(rest[j], userId) {
          assert rest[j] == players[j + 1];
        }
      }
    }
  }

  /** Scans the embedded player list (strategy 2). */
  method ProbeEmbedded(players: seq<Player>, userId: int) returns (probe: Probe)
    ensures probe == EmbeddedProbe(players, userId)
  {
    probe := Miss;
    var i := 0;
    while i < |players|
      invariant 0 <= i <= |players|
      invariant EmbeddedProbe(players, userId) == EmbeddedProbe(players[i..], userId)
    {
      assert players[i..][1..] == players[i + 1..];
      var player := players[i];
      if player.Bare? {
        return Crash;
      }
      var playerId := RecordId(player.fields);
      if Truthy(playerId) && Text(playerId) == IntToString(userId) {
        return Hit;
      }
      i := i + 1;
    }
  }

  /** The id a fetched roster entry carries (strategy 3): a record's first
      truthy id field, or the bare value itself. */
  function RosterId(p: Player): Value
  {
    match p
    case Record(f) => RecordId(f)
    case Bare(v) => v
  }

  predicate RosterHit(roster: Option<seq<Player>>, userId: int)
  {
    roster.Some? && exists i :: 0 <= i < |roster.value| && IdMatches(RosterId(roster.value[i]), userId)
  }

  /** Scans a fetched roster (strategy 3) and stops at the first match. */
  method ProbeRoster(roster: Option<seq<Player>>, userId: int) returns (found: bool)
    ensures found <==> RosterHit(roster, userId)
  {
    found := false;
    if roster.None? {
      return;
    }
    var players := roster.value;
    for i := 0 to |players|
      invariant forall j :: 0 <= j < i ==> !IdMatches(RosterId(players[j]), userId)
    {
      var playerId := RosterId(players[i]);
      if Truthy(playerId) && Text(playerId) == IntToString(userId) {
        found := true;
        break;
      }
    }
  }

  // ---------------------------------------------------------------------
  // One server, then the whole list

  /** `server_id or server_token`, the key the roster request is made with. */
  function ServerKey(s: Server): Value
  {
    if Truthy(s.id) then s.id else s.token
  }

  /** The strategies in their fixed order: tokens, then the embedded list,
      then (for a server with an id or token) the roster `rosterOf` returns
      for its key. A later strategy runs only when the earlier ones missed. */
  function Verdict(s: Server, userId: int, rosterOf: Value -> Option<seq<Player>>): Probe
  {
    if exists i :: 0 <= i < |s.playerTokens| && TokenMatches(s.playerTokens[i], userId) then Hit
    else match EmbeddedProbe(s.players, userId)
      case Hit => Hit
      case Crash => Crash
      case Miss =>
        if (Truthy(s.id) || Truthy(s.token)) && RosterHit(rosterOf(ServerKey(s)), userId) then Hit else Miss
  }

  /** The servers whose verdict is a hit, in list order. */
  function Hits(servers: seq<Server>, userId: int, rosterOf: Value -> Option<seq<Player>>): seq<Server>
  {
    if servers == [] then []
    else Hits(servers[..|servers| - 1], userId, rosterOf)
         + (if Verdict(servers[|servers| - 1], userId, rosterOf) == Hit then [servers[|servers| - 1]] else [])
  }

  predicate AnyCrash(servers: seq<Server>, userId: int, rosterOf: Value -> Option<seq<Player>>)
  {
    exists i :: 0 <= i < |servers| && Verdict(servers[i], userId, rosterOf) == Crash
  }

  /** Tries the strategies on one server in their fixed order; a later
      strategy runs only when the earlier ones missed. */
  method ProbeServer(server: Server, userId: int, rosterOf: Value -> Option<seq<Player>>)
    returns (probe: Probe)
    ensures probe == Verdict(server, userId, rosterOf)
  {
    var userFound := MatchTokens(server.playerTokens, userId);
    if userFound {
      return Hit;
    }
    probe := ProbeEmbedded(server.players, userId);
    if probe != Miss {
      return;
    }
    if Truthy(server.id) || Truthy(server.token) {
      userFound := ProbeRoster(rosterOf(ServerKey(server)), userId);
      if userFound {
        probe := Hit;
      }
    }
  }

  /** Checks every server in list order, collecting the ones that match; an
      entry of an embedded list that is not a record aborts the scan. */
  method ScanServers(servers: seq<Server>, userId: int, rosterOf: Value -> Option<seq<Player>>)
    returns (aborted: bool, found: seq<Server>)
    ensures aborted == AnyCrash(servers, userId, rosterOf)
    ensures !aborted ==> found == Hits(servers, userId, rosterOf)
  {
    found := [];
    for i := 0 to |servers|
      invariant forall j :: 0 <= j < i ==> Verdict(servers[j], userId, rosterOf) != Crash
      invariant found == Hits(servers[..i], userId, rosterOf)
    {
      var probe := ProbeServer(servers[i], userId, rosterOf);
      if probe == Crash {
        return true, found;
      }
      HitsStep(servers, i, userId, rosterOf);
      if probe == Hit {
        found := found + [servers[i]];
      }
    }
    assert servers[..|servers|] == servers;
    aborted := false;
  }

  /** One more server extends the hits by that server when it is a hit. */
  lemma HitsStep(servers: seq<Server>, i: nat, userId: int, rosterOf: Value -> Option<seq<Player>>)
    requires i < |servers|
    ensures Hits(servers[..i + 1], userId, rosterOf) == Hits(servers[..i], userId, rosterOf)
      + (if Verdict(servers[i], userId, rosterOf) == Hit then [servers[i]] else [])
  {
    assert servers[..i + 1][..i] == servers[..i];
  }

  /** A server is reported exactly when its verdict is a hit; the report
      never holds more servers than the list. */
  lemma {:induction false} HitsMeaning(servers: seq<Server>, userId: int, rosterOf: Value -> Option<seq<Player>>)
    ensures |Hits(servers, userId, rosterOf)| <= |servers|
    ensures forall s :: s in Hits(servers, userId, rosterOf) <==>
      s in servers && Verdict(s, userId, rosterOf) == Hit
  {
    if servers != [] {
      var init := servers[..|servers| - 1];
      HitsMeaning(init, userId, rosterOf);
      assert servers == init + [servers[|servers| - 1]];
    }
  }

  /** Hits keep list order: the report is the list with the other servers
      removed. */
  lemma {:induction false} HitsInListOrder(a: seq<Server>, b: seq<Server>, userId: int, rosterOf: Value -> Option<seq<Player>>)
    ensures Hits(a + b, userId, rosterOf) == Hits(a, userId, rosterOf) + Hits(b, userId, rosterOf)
  {
    if b == [] {
      assert a + b == a;
    } else {
      var b0 := b[..|b| - 1];
      assert (a + b)[..|a + b| - 1] == a + b0;
      assert (a + b)[|a + b| - 1] == b[|b| - 1];
      HitsInListOrder(a, b0, userId, rosterOf);
    }
  }

  // ---------------------------------------------------------------------
  // The whole search

  function Min(a: nat, b: nat): nat
  {
    if a <= b then a else b
  }

  /** The outcome of one search, given the user lookup (None or 0 when it
      failed), the universe text as typed, the server list, the presence
      response and the roster requests. */
  function Search(userId: Option<int>, universe: string, servers: seq<Server>,
                  presence: Option<seq<PresenceRecord>>, rosterOf: Value -> Option<seq<Player>>): Outcome
  {
    if userId.None? || userId.value == 0 then UserNotFound
    else if servers == [] then NoServers
    else if !InGame(presence, universe) then NotPlaying
    else if AnyCrash(servers, userId.value, rosterOf) then Failed
    else
      var hits := Hits(servers, userId.value, rosterOf);
      if hits != [] then Found(hits)
      else Shortlist(servers[..Min(ShortlistSize, |servers|)], |servers| - Min(ShortlistSize, |servers|))
  }

  /** `_search_servers_thread` after the user lookup, the server list and the
      presence request have answered. */
  method SearchServers(userId: Option<int>, universe: string, servers: seq<Server>,
                       presence: Option<seq<PresenceRecord>>, rosterOf: Value -> Option<seq<Player>>)
    returns (outcome: Outcome)
    ensures outcome == Search(userId, universe, servers, presence, rosterOf)
  {
    if userId.None? || userId.value == 0 {
      return UserNotFound;
    }
    if servers == [] {
      return NoServers;
    }
    var userInGame := InGame(presence, universe);
    if !userInGame {
      return NotPlaying;
    }
    var aborted, found := ScanServers(servers, userId.value, rosterOf);
    if aborted {
      return Failed;
    }
    if found != [] {
      outcome := Found(found);
    } else {
      var total := |servers|;
      var shown := Min(ShortlistSize, total);
      outcome := Shortlist(servers[..shown], total - shown);
    }
  }

  // ---------------------------------------------------------------------
  // Properties of the search

  /** A server is reported as found only after presence was confirmed, and
      only when one of the strategies matched it; the found servers appear
      in list order. */
  lemma FoundOnlyWithEvidence(userId: Option<int>, universe: string, servers: seq<Server>,
                              presence: Option<seq<PresenceRecord>>, rosterOf: Value -> Option<seq<Player>>)
    requires Search(userId, universe, servers, presence, rosterOf).Found?
    ensures InGame(presence, universe)
    ensures var found := Search(userId, universe, servers, presence, rosterOf).servers;
      && found != [] && |found| <= |servers|
      && forall s :: s in found <==> s in servers && Verdict(s, userId.value, rosterOf) == Hit
  {
    HitsMeaning(servers, userId.value, rosterOf);
  }

  /** With a resolved user and a non-empty list, the search reports "not
      playing" exactly when presence is not confirmed, whatever the servers
      hold. */
  lemma NotPlayingIffUnconfirmed(userId: int, universe: string, servers: seq<Server>,
                                 presence: Option<seq<PresenceRecord>>, rosterOf: Value -> Option<seq<Player>>)
    requires userId != 0 && servers != []
    ensures Search(Some(userId), universe, servers, presence, rosterOf) == NotPlaying
            <==> !InGame(presence, universe)
  {
  }

  /** The shortlist is reported exactly when presence is confirmed, the scan
      completed and no server matched; it lists the first min(10, n)
      servers in list order and counts the rest. */
  lemma ShortlistIffNoMatch(userId: int, universe: string, servers: seq<Server>,
                            presence: Option<seq<PresenceRecord>>, rosterOf: Value -> Option<seq<Player>>)
    requires userId != 0 && servers != []
    ensures Search(Some(userId), universe, servers, presence, rosterOf).Shortlist?
      <==> InGame(presence, universe) && !AnyCrash(servers, userId, rosterOf)
           && forall i :: 0 <= i < |servers| ==> Verdict(servers[i], userId, rosterOf) != Hit
    ensures Search(Some(userId), universe, servers, presence, rosterOf).Shortlist? ==>
      var out := Search(Some(userId), universe, servers, presence, rosterOf);
      && |out.shown| == Min(ShortlistSize, |servers|)
      && out.shown == servers[..|out.shown|]
      && |out.shown| + out.more == |servers|
  {
    HitsMeaning(servers, userId, rosterOf);
    var hits := Hits(servers, userId, rosterOf);
    if hits == [] {
      forall i | 0 <= i < |servers| ensures Verdict(servers[i], userId, rosterOf) != Hit {
        assert servers[i] in servers;
      }
    } else {
      assert hits[0] in hits;
    }
  }

  /** A presence record for another universe ends the search as "not
      playing" (universe 555 against a query for 777). */
  lemma OtherUniverseIsNotPlaying(userId: int, servers: seq<Server>, t: Value,
                                  rosterOf: Value -> Option<seq<Player>>)
    requires userId != 0 && servers != []
    ensures Search(Some(userId), "777", servers, Some([PresenceRecord(t, Int(555))]), rosterOf) == NotPlaying
  {
    assert NatToString(555) == "555";
    assert "555" != "777";
  }

  /** A server whose tokens include the user id as a numeric string is found,
      alone when no other server matches. */
  lemma NumericStringTokenIsFound(userId: nat, universe: string, s: Server,
                                  presence: Option<seq<PresenceRecord>>, rosterOf: Value -> Option<seq<Player>>)
    requires userId != 0 && InGame(presence, universe)
    requires Str(NatToString(userId)) in s.playerTokens
    ensures Search(Some(userId), universe, [s], presence, rosterOf) == Found([s])
  {
    NatToStringRoundTrip(userId);
    var i :| 0 <= i < |s.playerTokens| && s.playerTokens[i] == Str(NatToString(userId));
    assert TokenMatches(s.playerTokens[i], userId);
    assert Verdict(s, userId, rosterOf) == Hit;
    assert [s][..0] == [];
    assert Hits([s], userId, rosterOf) == Hits([], userId, rosterOf) + [s];
  }
}
