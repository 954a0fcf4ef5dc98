/** The in-memory backend of src/services/mockApi.ts: a user map, the
    current-user slot and an append-only leaderboard, updated in place by
    signup, login, logout and score submission; plus its two queries, the
    ranked leaderboard and the lookup of a spectated session. */
module MockService {
  import opened GameTypes
  import opened Wrappers

  /** What `mockUsers` stores under each username. */
  datatype StoredUser = StoredUser(username: string, password: string, userId: string)

  /** The `{ success, user?, error? }` answer of login and signup. */
  datatype AuthResponse = AuthResponse(success: bool, user: Option<User>, error: Option<string>)

  const LeaderboardLimit: nat := 10
  const InvalidCredentials: string := "Invalid username or password"
  const UsernameTaken: string := "Username already exists"

  function Min(a: int, b: int): int {
    if a <= b then a else b
  }

  // ---------------------------------------------------------------------------
  // Identifiers built from the clock

  function DigitChar(d: nat): char
    requires d < 10
  {
    "0123456789"[d]
  }

  /** The number a string of decimal digits denotes, read left to right. */
  function DecimalValue(s: string): nat
    requires forall i :: 0 <= i < |s| ==> '0' <= s[i] <= '9'
  {
    if s == [] then 0
    else DecimalValue(s[..|s| - 1]) * 10 + ((s[|s| - 1] as int) - ('0' as int))
  }

  /** The decimal spelling of `n`, as a template literal prints it. */
  function NatToDecimal(n: nat): (s: string)
    ensures |s| >= 1
    ensures forall i :: 0 <= i < |s| ==> '0' <= s[i] <= '9'
    ensures n >= 1 ==> s[0] != '0'
  {
    if n < 10 then
      DigitCharValue(n);
      [DigitChar(n)]
    else
      NatToDecimal(n / 10) + [DigitChar(n % 10)]
  }

  /** Each digit character stands for its own value. */
  lemma DigitCharValue(d: nat)
    requires d < 10
    ensures (DigitChar(d) as int) - ('0' as int) == d
  {
    if d == 0 {} else if d == 1 {} else if d == 2 {} else if d == 3 {} else if d == 4 {}
    else if d == 5 {} else if d == 6 {} else if d == 7 {} else if d == 8 {} else {}
  }

  /** Reading back the decimal spelling of `n` gives `n`. */
  lemma {:induction false} DecimalRoundTrip(n: nat)
    ensures DecimalValue(NatToDecimal(n)) == n
  {
    if n < 10 {
      DigitCharValue(n);
      assert NatToDecimal(n)[..0] == [];
    } else {
      var s := NatToDecimal(n);
      DigitCharValue(n % 10);
      DecimalRoundTrip(n / 10);
      assert s[..|s| - 1] == NatToDecimal(n / 10);
    }
  }

  /** `user-${Date.now()}`, with the clock reading passed in: the prefix
      `user-` followed by digits that spell the clock reading. */
  function UserIdAt(now: nat): (id: string)
    ensures |id| > 5 && id[..5] == "user-"
    ensures (forall i :: 5 <= i < |id| ==> '0' <= id[i] <= '9') && DecimalValue(id[5..]) == now
    ensures now >= 1 ==> id[5] != '0'
  {
    DecimalRoundTrip(now);
    var digits := NatToDecimal(now);
    assert ("user-" + digits)[5..] == digits;
    "user-" + digits
  }

  /** The five entries the module starts with, timestamped relative to the
      clock reading at load time. */
  function SeedLeaderboard(now: nat): (r: seq<LeaderboardEntry>)
    ensures |r| == 5 && SortedByScoreDesc(r)
    ensures forall i :: 0 <= i < |r| ==> r[i].timestamp < now
  {
    [ LeaderboardEntry("1", "SnakeKing", 2450, Walls, now - 3600000),
      LeaderboardEntry("2", "CyberViper", 2100, Walls, now - 7200000),
      LeaderboardEntry("3", "NeonCrawler", 1890, PassThrough, now - 10800000),
      LeaderboardEntry("4", "GridMaster", 1750, Walls, now - 14400000),
      LeaderboardEntry("5", "PixelHunter", 1520, PassThrough, now - 18000000) ]
  }

  // ---------------------------------------------------------------------------
  // Ranking: filter by mode, stable sort by descending score, take ten

  /** `if (gameMode) ... filter(entry => entry.gameMode === gameMode)`: no mode
      keeps everything. */
  predicate Matches(e: LeaderboardEntry, mode: Option<GameMode>) {
    mode.None? || e.gameMode == mode.value
  }

  function FilterByMode(entries: seq<LeaderboardEntry>, mode: Option<GameMode>): (r: seq<LeaderboardEntry>)
    ensures forall i :: 0 <= i < |r| ==> Matches(r[i], mode)
    ensures forall e :: multiset(r)[e] == if Matches(e, mode) then multiset(entries)[e] else 0
    ensures mode.None? ==> r == entries
  {
    if entries == [] then []
    else
      assert entries == [entries[0]] + entries[1..];
      var rest := FilterByMode(entries[1..], mode);
      if Matches(entries[0], mode) then [entries[0]] + rest else rest
  }

  predicate SortedByScoreDesc(s: seq<LeaderboardEntry>) {
    forall i, j :: 0 <= i < j < |s| ==> s[i].score >= s[j].score
  }

  /** An entry that scores at least as much as every entry of a sorted list
      can head it. */
  lemma ConsSorted(x: LeaderboardEntry, t: seq<LeaderboardEntry>)
    requires SortedByScoreDesc(t)
    requires forall y :: y in multiset(t) ==> x.score >= y.score
    ensures SortedByScoreDesc([x] + t)
  {
    var u := [x] + t;
    forall i, j | 0 <= i < j < |u| ensures u[i].score >= u[j].score {
      assert u[j] == t[j - 1];
      if i == 0 {
        assert t[j - 1] in multiset(t);
      } else {
        assert u[i] == t[i - 1];
      }
    }
  }

  /** The head of a sorted list scores at least as much as every entry in it. */
  lemma HeadIsBest(s: seq<LeaderboardEntry>)
    requires SortedByScoreDesc(s) && |s| >= 1
    ensures forall y :: y in multiset(s) ==> s[0].score >= y.score
  {
    forall y | y in multiset(s) ensures s[0].score >= y.score {
      var j :| 0 <= j < |s| && s[j] == y;
    }
  }

  /** Every entry after the head of a sorted list scores no more than the head. */
  lemma HeadBeatsTail(s: seq<LeaderboardEntry>)
    requires SortedByScoreDesc(s) && |s| >= 1
    ensures SortedByScoreDesc(s[1..])
    ensures forall y :: y in multiset(s[1..]) ==> s[0].score >= y.score
  {
    var t := s[1..];
    forall y: LeaderboardEntry | y in multiset(t) ensures s[0].score >= y.score {
      var j :| 0 <= j < |t| && t[j] == y;
      assert s[j + 1] == y;
    }
  }

  /** Keeping an outscoring head in front of an insertion into the tail keeps
      the list sorted and adds exactly the inserted entry. */
  lemma KeepHead(x: LeaderboardEntry, t: seq<LeaderboardEntry>, e: LeaderboardEntry, r: seq<LeaderboardEntry>)
    requires forall y :: y in multiset(t) ==> x.score >= y.score
    requires x.score > e.score
    requires SortedByScoreDesc(r) && multiset(r) == multiset(t) + multiset{e}
    ensures SortedByScoreDesc([x] + r)
    ensures multiset([x] + r) == multiset([x] + t) + multiset{e}
  {
    forall y: LeaderboardEntry | y in multiset(r) ensures x.score >= y.score {
      assert y == e || y in multiset(t);
    }
    ConsSorted(x, r);
    assert multiset([x] + r) == multiset{x} + multiset(r);
    assert multiset([x] + t) == multiset{x} + multiset(t);
  }

  /** Inserts `e` in front of the first entry that does not outscore it, so
      that it precedes the equal scores that came after it in the input. */
  function InsertByScore(e: LeaderboardEntry, s: seq<LeaderboardEntry>): (r: seq<LeaderboardEntry>)
    requires SortedByScoreDesc(s)
    ensures SortedByScoreDesc(r)
    ensures multiset(r) == multiset(s) + multiset{e}
    ensures |r| == |s| + 1
  {
    if s == [] then
      [e]
    else if s[0].score <= e.score then
      HeadIsBest(s);
      ConsSorted(e, s);
      [e] + s
    else
      HeadBeatsTail(s);
      var rest := InsertByScore(e, s[1..]);
      KeepHead(s[0], s[1..], e, rest);
      assert s == [s[0]] + s[1..];
      [s[0]] + rest
  }

  /** `sort((a, b) => b.score - a.score)`: a stable insertion sort. */
  function SortByScoreDesc(s: seq<LeaderboardEntry>): (r: seq<LeaderboardEntry>)
    ensures SortedByScoreDesc(r)
    ensures multiset(r) == multiset(s)
    ensures |r| == |s|
  {
    if s == [] then []
    else
      assert s == [s[0]] + s[1..];
      InsertByScore(s[0], SortByScoreDesc(s[1..]))
  }

  /** The ranked view: the first ten of the sorted matching entries. */
  function TopScores(entries: seq<LeaderboardEntry>, mode: Option<GameMode>): (r: seq<LeaderboardEntry>)
    ensures |r| == Min(LeaderboardLimit, |FilterByMode(entries, mode)|)
    ensures SortedByScoreDesc(r)
    ensures multiset(r) <= multiset(FilterByMode(entries, mode))
  {
    var sorted := SortByScoreDesc(FilterByMode(entries, mode));
    PrefixOfSorted(sorted, Min(LeaderboardLimit, |sorted|));
    sorted[..Min(LeaderboardLimit, |sorted|)]
  }

  /** A copy of an entry that a sorted prefix leaves out (the prefix holds
      fewer copies of it than the whole list) scores no more than any entry
      kept. */
  lemma PrefixHoldsTopScores(sorted: seq<LeaderboardEntry>, k: nat, e: LeaderboardEntry)
    requires SortedByScoreDesc(sorted) && k <= |sorted|
    requires multiset(sorted[..k])[e] < multiset(sorted)[e]
    ensures forall i :: 0 <= i < k ==> sorted[i].score >= e.score
  {
    assert sorted == sorted[..k] + sorted[k..];
    assert multiset(sorted) == multiset(sorted[..k]) + multiset(sorted[k..]);
    assert e in multiset(sorted[k..]);
    var j :| 0 <= j < |sorted[k..]| && sorted[k..][j] == e;
    assert sorted[k + j] == e;
  }

  /** A prefix of a sorted list is sorted and holds a sub-multiset of it. */
  lemma PrefixOfSorted(s: seq<LeaderboardEntry>, k: nat)
    requires SortedByScoreDesc(s) && k <= |s|
    ensures SortedByScoreDesc(s[..k])
    ensures multiset(s[..k]) <= multiset(s)
  {
    assert s == s[..k] + s[k..];
    assert multiset(s) == multiset(s[..k]) + multiset(s[k..]);
  }

  /** The filtered list keeps each entry at most as often as the input has it. */
  lemma FilterIsSubMultiset(entries: seq<LeaderboardEntry>, mode: Option<GameMode>)
    ensures multiset(FilterByMode(entries, mode)) <= multiset(entries)
  {
    var matching := FilterByMode(entries, mode);
    forall e ensures multiset(matching)[e] <= multiset(entries)[e] {
    }
  }

  /** Every entry of the ranked view is a stored entry of the requested mode. */
  lemma TopScoresFromMatching(entries: seq<LeaderboardEntry>, mode: Option<GameMode>)
    ensures var r := TopScores(entries, mode);
      && (forall i :: 0 <= i < |r| ==> Matches(r[i], mode))
      && multiset(r) <= multiset(entries)
  {
    var matching := FilterByMode(entries, mode);
    var top := TopScores(entries, mode);
    FilterIsSubMultiset(entries, mode);
    forall i | 0 <= i < |top| ensures Matches(top[i], mode) {
      assert top[i] in multiset(top);
      assert top[i] in multiset(matching);
      var j :| 0 <= j < |matching| && matching[j] == top[i];
    }
  }

  /** No matching entry left out of the ranked view beats one that is in it,
      counting copies: whenever the view holds fewer copies of a matching entry
      than the store, that entry scores no more than anything in the view. */
  lemma TopScoresKeepBest(entries: seq<LeaderboardEntry>, mode: Option<GameMode>)
    ensures var r := TopScores(entries, mode);
      forall e :: Matches(e, mode) && multiset(r)[e] < multiset(entries)[e]
        ==> forall i :: 0 <= i < |r| ==> r[i].score >= e.score
    ensures var r := TopScores(entries, mode);
      forall k :: 0 <= k < |entries| && Matches(entries[k], mode) && entries[k] !in r
        ==> forall i :: 0 <= i < |r| ==> r[i].score >= entries[k].score
  {
    var matching := FilterByMode(entries, mode);
    var sorted := SortByScoreDesc(matching);
    var top := TopScores(entries, mode);
    assert top == sorted[..|top|];
    forall e | Matches(e, mode) && multiset(top)[e] < multiset(entries)[e]
      ensures forall i :: 0 <= i < |top| ==> top[i].score >= e.score
    {
      assert multiset(sorted)[e] == multiset(entries)[e];
      PrefixHoldsTopScores(sorted, |top|, e);
    }
    forall k | 0 <= k < |entries| && Matches(entries[k], mode) && entries[k] !in top
      ensures forall i :: 0 <= i < |top| ==> top[i].score >= entries[k].score
    {
      assert entries[k] in multiset(entries);
      assert multiset(top)[entries[k]] == 0;
    }
  }

  // ---------------------------------------------------------------------------
  // Spectating

  /** The three sessions `getActiveSessions` fabricates on every call. */
  function GetActiveSessions(now: nat): (r: seq<GameSession>)
    ensures |r| == 3
    ensures forall i :: 0 <= i < |r| ==> r[i].isActive
    ensures forall i, j :: 0 <= i < j < |r| ==> r[i].sessionId != r[j].sessionId
  {
    [ GameSession("session-1", "2", "CyberViper", Walls, 1250, true, now - 120000),
      GameSession("session-2", "3", "NeonCrawler", PassThrough, 890, true, now - 90000),
      GameSession("session-3", "5", "PixelHunter", Walls, 650, true, now - 60000) ]
  }

  /** `Array.prototype.find` on the session id, with `|| null`. */
  function FindSession(sessions: seq<GameSession>, sessionId: string): (r: Option<GameSession>)
    ensures r.Some? <==> exists i :: 0 <= i < |sessions| && sessions[i].sessionId == sessionId
    ensures r.Some? ==> exists i :: 0 <= i < |sessions| && sessions[i] == r.value
                                  && r.value.sessionId == sessionId
                                  && forall j :: 0 <= j < i ==> sessions[j].sessionId != sessionId
  {
    if sessions == [] then None
    else if sessions[0].sessionId == sessionId then Some(sessions[0])
    else
      var r := FindSession(sessions[1..], sessionId);
      assert r.Some? ==> exists i :: 1 <= i < |sessions| && sessions[i] == r.value
                                  && r.value.sessionId == sessionId
                                  && forall j :: 0 <= j < i ==> sessions[j].sessionId != sessionId by {
        if r.Some? {
          var i :| 0 <= i < |sessions[1..]| && sessions[1..][i] == r.value
                   && forall j :: 0 <= j < i ==> sessions[1..][j].sessionId != sessionId;
          assert sessions[i + 1] == r.value;
          forall j | 0 <= j < i + 1 ensures sessions[j].sessionId != sessionId {
            if j > 0 {
              assert sessions[j] == sessions[1..][j - 1];
            }
          }
        }
      }
      r
  }

  /** `watchSession`: the active session with that id, or none. */
  function WatchSession(sessionId: string, now: nat): (r: Option<GameSession>)
    ensures r.Some? <==> sessionId in {"session-1", "session-2", "session-3"}
    ensures r.Some? ==> r.value.sessionId == sessionId && r.value.isActive && r.value in GetActiveSessions(now)
  {
    var sessions := GetActiveSessions(now);
    assert sessions[0].sessionId == "session-1" && sessions[1].sessionId == "session-2"
        && sessions[2].sessionId == "session-3";
    FindSession(sessions, sessionId)
  }

  // ---------------------------------------------------------------------------
  // The store

  class MockApi {
    var currentUser: Option<User>
    var mockUsers: map<string, StoredUser>
    var mockLeaderboard: seq<LeaderboardEntry>

    /** Every user is stored under its own name, and a current user is a
        stored one with the stored id. */
    ghost predicate Valid()
      reads this
    {
      && (forall u :: u in mockUsers ==> mockUsers[u].username == u)
      && (currentUser.Some? ==>
            && currentUser.value.username in mockUsers
            && mockUsers[currentUser.value.username].userId == currentUser.value.userId)
    }

    /** The module's initial state, loaded at clock reading `now`. */
    constructor (now: nat)
      ensures Valid()
      ensures currentUser == None && mockUsers == map[] && mockLeaderboard == SeedLeaderboard(now)
    {
      currentUser := None;
      mockUsers := map[];
      mockLeaderboard := SeedLeaderboard(now);
    }

    method Login(username: string, password: string) returns (r: AuthResponse)
      requires Valid()
      modifies this`currentUser
      ensures Valid()
      ensures r.success <==> username in mockUsers && mockUsers[username].password == password
      ensures r.success ==> && currentUser == Some(User(mockUsers[username].userId, username))
                            && r == AuthResponse(true, currentUser, None)
      ensures !r.success ==> && currentUser == old(currentUser)
                             && r == AuthResponse(false, None, Some(InvalidCredentials))
    {
      if username in mockUsers && mockUsers[username].password == password {
        var stored := mockUsers[username];
        currentUser := Some(User(stored.userId, username));
        return AuthResponse(true, currentUser, None);
      }
      return AuthResponse(false, None, Some(InvalidCredentials));
    }

    method Signup(username: string, password: string, now: nat) returns (r: AuthResponse)
      requires Valid()
      modifies this`mockUsers, this`currentUser
      ensures Valid()
      ensures r.success <==> username !in old(mockUsers)
      ensures !r.success ==> && mockUsers == old(mockUsers) && currentUser == old(currentUser)
                             && r == AuthResponse(false, None, Some(UsernameTaken))
      ensures r.success ==> && mockUsers == old(mockUsers)[username := StoredUser(username, password, UserIdAt(now))]
                            && currentUser == Some(User(UserIdAt(now), username))
                            && r == AuthResponse(true, currentUser, None)
    {
      if username in mockUsers {
        return AuthResponse(false, None, Some(UsernameTaken));
      }
      var userId := UserIdAt(now);
      mockUsers := mockUsers[username := StoredUser(username, password, userId)];
      currentUser := Some(User(userId, username));
      return AuthResponse(true, currentUser, None);
    }

    method Logout()
      requires Valid()
      modifies this`currentUser
      ensures Valid() && currentUser == None
    {
      currentUser := None;
    }

    function GetCurrentUser(): (u: Option<User>)
      reads this
      ensures u == currentUser
      ensures Valid() && u.Some? ==> u.value.username in mockUsers
    {
      currentUser
    }

    /** `getLeaderboard`: at most ten matching entries, best first, taken from
        a sorted copy so that the stored array keeps its order. */
    function GetLeaderboard(mode: Option<GameMode>): (r: seq<LeaderboardEntry>)
      reads this
      ensures |r| == Min(LeaderboardLimit, |FilterByMode(mockLeaderboard, mode)|)
      ensures forall i :: 0 <= i < |r| ==> Matches(r[i], mode)
      ensures SortedByScoreDesc(r)
      ensures multiset(r) <= multiset(mockLeaderboard)
      ensures forall e :: Matches(e, mode) && multiset(r)[e] < multiset(mockLeaderboard)[e]
                ==> forall i :: 0 <= i < |r| ==> r[i].score >= e.score
      ensures forall k :: 0 <= k < |mockLeaderboard| && Matches(mockLeaderboard[k], mode) && mockLeaderboard[k] !in r
                ==> forall i :: 0 <= i < |r| ==> r[i].score >= mockLeaderboard[k].score
    {
      TopScoresFromMatching(mockLeaderboard, mode);
      TopScoresKeepBest(mockLeaderboard, mode);
      TopScores(mockLeaderboard, mode)
    }

    method SubmitScore(score: int, gameMode: GameMode, now: nat) returns (success: bool)
      requires Valid()
      modifies this`mockLeaderboard
      ensures Valid()
      ensures success <==> currentUser.Some?
      ensures success ==> mockLeaderboard == old(mockLeaderboard)
                            + [LeaderboardEntry(currentUser.value.userId, currentUser.value.username, score, gameMode, now)]
      ensures !success ==> mockLeaderboard == old(mockLeaderboard)
    {
      if currentUser.None? {
        return false;
      }
      var entry := LeaderboardEntry(currentUser.value.userId, currentUser.value.username, score, gameMode, now);
      mockLeaderboard := mockLeaderboard + [entry];
      return true;
    }
  }

  // ---------------------------------------------------------------------------
  // The scenarios of frontend/src/lib/__tests__/mockApi.test.ts, as clients of
  // the contracts above

  /** Signing up, logging out and logging back in with the same password
      succeeds and restores the user that signup created. */
  method SignupLogoutLogin(api: MockApi, username: string, password: string, now: nat) returns (r: AuthResponse)
    requires api.Valid() && username !in api.mockUsers
    modifies api
    ensures api.Valid()
    ensures r.success && r.user == Some(User(UserIdAt(now), username))
  {
    var s := api.Signup(username, password, now);
    api.Logout();
    r := api.Login(username, password);
  }

  /** A second signup under a taken name fails with the duplicate-name error. */
  method DuplicateSignup(api: MockApi, username: string, now: nat) returns (r: AuthResponse)
    requires api.Valid() && username !in api.mockUsers
    modifies api
    ensures api.Valid()
    ensures r == AuthResponse(false, None, Some(UsernameTaken))
  {
    var first := api.Signup(username, "pass1", now);
    r := api.Signup(username, "pass2", now);
  }

  /** After logout, submitting a score fails and the leaderboard is unchanged. */
  method SubmitAfterLogout(api: MockApi, now: nat) returns (success: bool)
    requires api.Valid()
    modifies api
    ensures api.Valid()
    ensures !success && api.mockLeaderboard == old(api.mockLeaderboard)
  {
    api.Logout();
    success := api.SubmitScore(1000, Walls, now);
  }

  /** The seeded leaderboard has entries even before anyone submits. */
  lemma SeededLeaderboardNotEmpty(api: MockApi, now: nat)
    requires api.mockLeaderboard == SeedLeaderboard(now)
    ensures |api.GetLeaderboard(None)| == 5
  {
  }
}
