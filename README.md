# Roblox lookup: alt-account scoring and the server search, in Dafny

This project models the decision logic of the Roblox user-lookup desktop tool.
Its user interface and network plumbing are not modelled. Three pieces are covered:

* **Alt-account detection** (`detect_alt_accounts`). It takes the first 50 friends of
  a target user and scores each friend whose profile can be fetched, using six
  fixed-weight checks:
  * creation dates at most 30 days apart (3 points);
  * usernames more than 60% similar (2);
  * the same base username once digits, `_` and `-` are stripped (3);
  * descriptions more than 70% similar (2);
  * fewer than 10 friends (1);
  * fewer than 5 badges (1).

  Friends scoring at least 4 are kept, sorted stably by descending score, and cut to
  10 (module `AltDetection`, with the sort in `Ranking`).
* **Searching for a user in a game's public servers** (`_search_servers_thread`,
  `resolve_player_token`, `check_user_presence_in_game`). A presence gate first
  requires the user's presence to name the queried universe. Then each server is
  tried with three strategies, in order:
  1. its player tokens;
  2. an embedded player list;
  3. a separately fetched roster.

  The search reports the servers that matched. When none matched, it reports the
  first 10 servers as a shortlist (module `ServerSearch`).
* **Reading the universe id back** out of the "current game" text with
  `Universe:\s*(\d+)` (module `UniverseId`).

`Values` holds the JSON scalars the code handles, with Python's `str()`, truthiness,
`str.isdigit()` and `int()` on them.

Everything the code fetches over the network enters the model as an input:

* the profile, friends-count, badge-count and date-difference results, and the
  matcher's count, through `AltDetection.Platform`;
* the user lookup, server list, presence response and roster requests, as parameters
  of `ServerSearch.Search`.

Both engines are therefore functions of what the platform answered. The loops of the
source are methods, each proved equal to such a function:

* `ScoreFriend` and `DetectAltAccounts`;
* `MatchTokens`, `ProbeEmbedded`, `ProbeRoster`, `ProbeServer`, `ScanServers` and
  `SearchServers`.

The properties are proved about those functions.

The model follows the code where a plain reading of the tool's behaviour would differ:

* The presence gate compares `str(universeId)` with the universe text exactly as typed
  (after `strip()`). Presence in universe 777 therefore does not confirm a query typed
  as `0777`.
* A reading that skips the username-similarity check would give "john_doe" and
  "john_doe2" (10 days apart, few friends and badges) 8 points. All 8 characters of
  "john_doe" match, a ratio of 16/17, so the code scores 10 with five reasons
  (`AltDetection.DecoratedTwinScenario`).
* The report shows scores as "N/10", but six checks can add up to 12
  (`AltDetection.ScoreBounds`).
* Python's `bool` is an `int`. A `True` player token therefore matches user id 1
  (`ServerSearch.TokenMatchesCharacterized`).
* An entry of an embedded player list that is not a record has no `get`. The error
  reaches the search's outer handler, so the whole search ends in an error message
  (`Failed`) rather than skipping that server.

## Model

| member | source | states |
|---|---|---|
| Values.NatToString | roblox_lookup.py:1142 | `str()` of a non-negative int is a non-empty digit string with no leading zero |
| Values.NatToStringRoundTrip | roblox_lookup.py:1116-1119 | `int(str(n)) == n` for every non-negative n |
| Values.IntToStringDigits | roblox_lookup.py:1298 | `str(n).isdigit()` holds exactly for the non-negative ints |
| Values.IntToStringInjective | roblox_lookup.py:1142 | two ints have the same `str()` text exactly when they are equal, so text comparison of ints is int comparison |
| Ranking.SortDesc | roblox_lookup.py:843-844 | sorting keeps the number of candidates |
| Ranking.SortDescOrdered | roblox_lookup.py:843-844 | after the sort, scores never increase from left to right |
| Ranking.SortDescPermutes | roblox_lookup.py:843-844 | the sort loses and invents no candidate (same multiset) |
| Ranking.SortDescStable | roblox_lookup.py:843-844 | for each score, the candidates with that score keep their input order (stability of `list.sort` with `reverse=True`) |
| Ranking.SortDescProperties | roblox_lookup.py:843-844 | ordered, a permutation, and stable, for every key value |
| AltDetection.Evaluate | roblox_lookup.py:785-829 | each of the six checks can only yield its own kind of reason |
| AltDetection.ScoreFriend | roblox_lookup.py:785-829 | the reasons built for one friend are exactly the checks that fire, in table order; the score is the sum of their table points |
| AltDetection.ScoreIsGuardedSum | roblox_lookup.py:785-829 | the score equals the sum of the weights of the listed reasons: each fired check counts once, with its weight |
| AltDetection.ReasonsInTableOrder | roblox_lookup.py:785-829 | at most six reasons, their table positions strictly increasing (no check listed twice, none out of order) |
| AltDetection.ScoreBounds | roblox_lookup.py:785-829 | the number of reasons is at most the score, and the score is at most 12 |
| AltDetection.LowerKeepsLowercase | roblox_lookup.py:757 | `lower()` leaves text without capital letters unchanged |
| AltDetection.LowerIdempotent | roblox_lookup.py:757 | lower-casing twice is lower-casing once |
| AltDetection.BaseCheckCaseInsensitiveSymmetric | roblox_lookup.py:806-811 | the base-name check gives the same decision with the two names swapped, and extra lower-casing changes nothing |
| AltDetection.NameCheckSymmetric | roblox_lookup.py:800-804 | swapping the two usernames gives the same similarity decision when the matcher counts the same matches both ways |
| AltDetection.IdenticalNamesAreSimilar | roblox_lookup.py:800-804 | a friend with the user's own (lower-cased) name always passes the username check |
| AltDetection.FailedCountsScoreAsLowActivity | roblox_lookup.py:820-829 | a failed friends-count or badge-count request reads as 0 and fires the low-activity check |
| AltDetection.StripAppend | roblox_lookup.py:807-808 | stripping `[0-9_\-]` from a concatenation is the concatenation of the stripped parts |
| AltDetection.StripAllDecorations | roblox_lookup.py:807-808 | a string of digits, `_` and `-` strips to nothing |
| AltDetection.DecoratedVariantSharesBase | roblox_lookup.py:806-811 | a name and the same name followed by digits, `_` or `-` share their base, when it is not empty |
| AltDetection.DecoratedTwinScenario | roblox_lookup.py:785-829 | "john_doe" against "john_doe2", 10 days apart, low counts, no description: reasons date, username (8 of 17), base, friends, badges; score 10 |
| AltDetection.Sample | roblox_lookup.py:771 | the friends examined are a prefix of the friends list: all of it when it has at most 50 entries, otherwise exactly the first 50 |
| AltDetection.DetectAltAccounts | roblox_lookup.py:751-849 | returns the report function's value: at most 10 candidates, each scoring at least 4, in non-increasing score order |
| AltDetection.CandidatesAppend | roblox_lookup.py:771-838 | the candidates of two stretches of friends are the candidates of each, in order |
| AltDetection.CandidatesSound | roblox_lookup.py:771-838 | every candidate comes from an examined friend whose profile was fetched, carries that friend's reasons, and scores their weight sum, at least 4 |
| AltDetection.CandidatesComplete | roblox_lookup.py:771-838 | every examined friend with a fetched profile and a score of at least 4 is a candidate |
| AltDetection.SkippedFriendChangesNothing | roblox_lookup.py:776-779 | a friend whose profile fetch fails is absent and the others are scored as if it were not in the list |
| AltDetection.AltReportProperties | roblox_lookup.py:751-849 | the report has at most 10 entries, all scoring at least 4, in non-increasing order; a failed or empty friends request gives an empty report |
| AltDetection.TiesKeepFriendOrder | roblox_lookup.py:843-844 | candidates with equal scores appear in the order of the friends list |
| ServerSearch.InGameMeansSameUniverse | roblox_lookup.py:1305-1320 | presence is confirmed exactly when the first presence record names the queried universe; a failed or empty response never confirms it, whatever the presence type |
| ServerSearch.ResolveToken | roblox_lookup.py:1294-1303 | a token resolves exactly when it is an int or a string whose text is a digit string, and then to the value of those digits |
| ServerSearch.TokenMatchesCharacterized | roblox_lookup.py:1110-1124 | for a non-negative id, a token matches exactly when it resolves to the id, or is a bool equal to it, or is another value whose text is the id's decimal text |
| ServerSearch.ResolutionAddsNoMatch | roblox_lookup.py:1125-1130 | the `resolve_player_token` fallback would accept no token the direct comparisons reject |
| ServerSearch.MatchTokens | roblox_lookup.py:1104-1130 | the token scan finds the user exactly when some token matches |
| ServerSearch.FirstTruthy | roblox_lookup.py:1138-1141 | the `or` chain yields a truthy value exactly when one of the keys holds one, and then the first such value |
| ServerSearch.IdMatchesCharacterized | roblox_lookup.py:1142 | for a non-zero user id, a player id matches exactly when it is that int, its decimal string, or another value with that text |
| ServerSearch.RecordIdMatches | roblox_lookup.py:1136-1144 | a record matches when its first truthy field among `id`, `userId`, `user_id`, `Id` has the user id's text |
| ServerSearch.EmbeddedHitMeaning | roblox_lookup.py:1133-1144 | the embedded list finds the user exactly when a matching record comes before any entry that is not a record |
| ServerSearch.EmbeddedCrashMeaning | roblox_lookup.py:1133-1144 | the embedded list aborts the search exactly when an entry that is not a record comes before any matching record |
| ServerSearch.ProbeEmbedded | roblox_lookup.py:1133-1144 | the scan of the embedded list returns the hit, miss or abort the list determines |
| ServerSearch.ProbeRoster | roblox_lookup.py:1147-1163 | the roster scan finds the user exactly when the roster was fetched and one of its entries (record or bare id) matches |
| ServerSearch.ProbeServer | roblox_lookup.py:1097-1163 | one server's verdict: tokens first, then the embedded list, then the roster of a server with an id or token |
| ServerSearch.ScanServers | roblox_lookup.py:1090-1185 | the scan aborts exactly when some server's embedded list aborts; otherwise it collects exactly the servers that matched, in list order |
| ServerSearch.HitsMeaning | roblox_lookup.py:1178-1185 | a server is reported exactly when one of the strategies matched it; never more servers than listed |
| ServerSearch.HitsInListOrder | roblox_lookup.py:1090-1185 | the found servers keep the order of the server list |
| ServerSearch.SearchServers | roblox_lookup.py:1055-1234 | the search's outcome is the search function's value for the same answers |
| ServerSearch.FoundOnlyWithEvidence | roblox_lookup.py:1078-1189 | a server is reported found only after presence was confirmed and only when a strategy matched it |
| ServerSearch.NotPlayingIffUnconfirmed | roblox_lookup.py:1078-1084 | with a resolved user and a non-empty list, "not playing" is reported exactly when presence is not confirmed, whatever the servers hold |
| ServerSearch.ShortlistIffNoMatch | roblox_lookup.py:1196-1216 | the shortlist is reported exactly when presence is confirmed, the scan completed and no server matched; it lists the first min(10, n) servers in order and counts the rest |
| ServerSearch.OtherUniverseIsNotPlaying | roblox_lookup.py:1305-1320 | presence in universe 555 against a query for 777 ends the search as "not playing", whatever the servers |
| ServerSearch.NumericStringTokenIsFound | roblox_lookup.py:1110-1119 | a single server whose tokens hold the user id as a numeric string is found, alone |
| UniverseId.SpaceRunMaximal | roblox_lookup.py:1021 | `\s*` takes the longest run of whitespace |
| UniverseId.DigitRunMaximal | roblox_lookup.py:1021 | `\d+` takes the longest run of digits |
| UniverseId.GroupAt | roblox_lookup.py:1021-1022 | the captured group is a non-empty digit string |
| UniverseId.MatchAtMeaning | roblox_lookup.py:1021 | any way the pattern can match at a position (label, whitespace, a maximal digit run) is the match found there, with that digit run as group |
| UniverseId.FirstMatchFrom | roblox_lookup.py:1021 | the search returns the leftmost match position, or none when nothing matches |
| UniverseId.ExtractUniverseId | roblox_lookup.py:1020-1023 | an id is extracted exactly when the pattern matches somewhere |
| UniverseId.ExtractIsLeftmost | roblox_lookup.py:1021-1022 | the extracted id is the group of the leftmost match |
| UniverseId.LeftmostRoundTripPlainName | roblox_lookup.py:676 | for a game name not containing "Universe:", the extraction reads back the id the text was built with |
| UniverseId.BareRoundTrip | roblox_lookup.py:678 | for a game without a name, both extractions read back the id |
| UniverseId.LeftmostPicksNameDigits | roblox_lookup.py:1021 | for a game named "Universe: 1" with id 555, the extraction yields "1" (the corrected one yields "555") |
| UniverseId.LastMatchUpTo | roblox_lookup.py:1021 | corrected search: the rightmost match position, or none when nothing matches |
| UniverseId.ExtractTrailingUniverseId | roblox_lookup.py:1020-1023 | corrected extraction: an id is extracted exactly when the pattern matches somewhere |
| UniverseId.ExtractIsRightmost | roblox_lookup.py:1021-1022 | the corrected extraction yields the group of the rightmost match |
| UniverseId.TrailingRoundTrip | roblox_lookup.py:676 | for every game name, the corrected extraction reads back the id the text was built with, and its digits have that value |

## Left out

- The user interface is not modelled: Tkinter widgets, message boxes, the "Checked c/t servers" progress text, the result text, and the formatting of the found-server details.
- Threads and the `root.after` callbacks are not modelled.
- HTTP requests (profile, friends list, counts, user lookup, server list, presence, rosters) are not modelled; their results are inputs. A failed request is `None`, and a failed count is 0, as in the count helpers.
- `datetime.fromisoformat` is not modelled. The day difference of two creation timestamps is an input, `None` when a timestamp does not parse.
- `difflib.SequenceMatcher` is not modelled. The total size of its matching blocks is an input, and the ratio test is stated exactly over that count.
- AltDetection.NameCheckSymmetric: holds only when the matcher counts the same matches in both directions, which difflib does not guarantee in general.
- The reason strings are not formatted. A reason carries its data (days apart, matched and total characters, counts), so the rounding of the similarity percentage is not modelled.
- `lower()`, `isdigit()`, `\d` and `int()` are ASCII-only. Python also accepts other Unicode letters and digits (and `int()` rejects some characters that `isdigit()` accepts), so this is not modelled.
- A JSON `null` in a `name` or `description` field is not modelled: missing fields read as "", so the `AttributeError` that `None.lower()` would raise cannot occur. In the code its effect depends on where the `null` sits. In the target's own profile (roblox_lookup.py:757-758) the outer handler (846-849) returns an empty list. In a friend's profile description (782) only that friend is skipped, by the inner handler at 840. A `null` `created` raises nothing: it is falsy and only skips the creation-date check (789), which the model reproduces by reading it as "".
- A friends-list entry that is not a record, or whose `name` is `null`, is not modelled. Lines 772-773 sit outside the per-friend `try`, so the error reaches the outer handler before the sort at 844, and the tool returns the first 10 candidates gathered so far, unsorted. In the model every friends-list entry is a record with a text name, so the report is always sorted.
- Strategy 4 (`get_place_players`) is left out of the per-server probe. That function always returns `None`, so it never matches.
- The branch at roblox_lookup.py:1219-1229 ("User not found in any of the servers") is not modelled. It cannot be reached: presence is already confirmed and the server list is non-empty there.
- Server entries that are not records are not modelled; every server is a record.
- `playerTokens` and `players` values that are not lists are not modelled; these fields are lists, and a missing field reads as an empty list.
- The user id from the lookup is an int (`None` or 0 when the lookup failed). Other id shapes are not modelled.

## Findings

| source | as written | input that shows it | evidently intended | confidence | as-written member | corrected member |
|---|---|---|---|---|---|---|
| roblox_lookup.py:1021 | `re.search` takes the leftmost "Universe: <digits>" in the current-game text, which starts with the game's name | a game named "Universe: 1" with id 555 gives "Universe: 1 (Universe: 555)", and the extracted id is 1 | read the id from the trailing "(Universe: <id>)" the text was built with (roblox_lookup.py:676), i.e. the rightmost match | medium: needs a game name containing "Universe:" followed by digits; not executed | UniverseId.LeftmostPicksNameDigits | UniverseId.TrailingRoundTrip |
