/** `MultiSessionUtil`: the table of browser tabs, each with its HTTP session, the user
    signed in on it (if any) and the time it was last used. Random tab ids and the clock
    are parameters. */
module MultiSession {
  import opened Wrappers
  import opened Text

  datatype TabSession = TabSession(tabId: string, sessionId: string, username: Option<string>, lastAccessed: int)

  const TabPrefix: string := "tab-"
  const SessionTimeout: int := 3600000

  /** A tab is stale once more than an hour has passed since it was last used. */
  predicate Stale(s: TabSession, now: int) {
    now - s.lastAccessed > SessionTimeout
  }

  /** The tabs still fresh at `now`. */
  function Fresh(tabs: map<string, TabSession>, now: int): (r: map<string, TabSession>)
    ensures forall k :: k in r <==> k in tabs && !Stale(tabs[k], now)
    ensures forall k :: k in r ==> r[k] == tabs[k]
  {
    map k | k in tabs && !Stale(tabs[k], now) :: tabs[k]
  }

  /** Cleaning up twice at the same time removes nothing more, and a later cleanup
      removes at least as much. */
  lemma FreshMonotone(tabs: map<string, TabSession>, now: int, later: int)
    requires now <= later
    ensures Fresh(Fresh(tabs, now), now) == Fresh(tabs, now)
    ensures Fresh(Fresh(tabs, now), later) == Fresh(tabs, later)
  {
  }

  /** The tabs signed in as `username`. */
  function TabsOf(tabs: map<string, TabSession>, username: string): (r: set<string>)
    ensures forall k :: k in r <==> k in tabs && tabs[k].username == Some(username)
  {
    set k | k in tabs && tabs[k].username == Some(username)
  }

  class MultiSessionUtil {
    var tabSessions: map<string, TabSession>

    /** Every entry is stored under its own tab id. */
    ghost predicate Valid()
      reads this
    {
      forall k :: k in tabSessions ==> tabSessions[k].tabId == k
    }

    constructor ()
      ensures Valid() && tabSessions == map[]
    {
      tabSessions := map[];
    }

    /** `createTabSession`: a tab id of "tab-" and the first eight characters of a random
        UUID, stored with the request's session, no user and `now`. */
    method CreateTabSession(uuid: string, sessionId: string, now: int) returns (tabId: string)
      requires Valid() && |uuid| >= 8
      modifies this
      ensures Valid()
      ensures tabId == TabPrefix + uuid[..8] && StartsWith(tabId, TabPrefix) && |tabId| == 12
      ensures tabSessions == old(tabSessions)[tabId := TabSession(tabId, sessionId, None, now)]
    {
      tabId := TabPrefix + uuid[..8];
      assert tabId[..|TabPrefix|] == TabPrefix;
      tabSessions := tabSessions[tabId := TabSession(tabId, sessionId, None, now)];
    }

    /** `getTabSession`: a known tab is returned with its access time refreshed; an
        unknown one gives null and changes nothing. */
    method GetTabSession(tabId: string, now: int) returns (session: Option<TabSession>)
      requires Valid()
      modifies this
      ensures Valid()
      ensures tabId !in old(tabSessions) ==> session.None? && tabSessions == old(tabSessions)
      ensures tabId in old(tabSessions) ==>
                session == Some(old(tabSessions)[tabId].(lastAccessed := now))
                && tabSessions == old(tabSessions)[tabId := session.value]
    {
      if tabId in tabSessions {
        var s := tabSessions[tabId].(lastAccessed := now);
        tabSessions := tabSessions[tabId := s];
        session := Some(s);
      } else {
        session := None;
      }
    }

    /** `setTabUser`: a known tab takes the user and `now`; an unknown tab is ignored. */
    method SetTabUser(tabId: string, username: Option<string>, now: int)
      requires Valid()
      modifies this
      ensures Valid()
      ensures tabId !in old(tabSessions) ==> tabSessions == old(tabSessions)
      ensures tabId in old(tabSessions) ==>
                tabSessions == old(tabSessions)[tabId := old(tabSessions)[tabId].(username := username, lastAccessed := now)]
    {
      if tabId in tabSessions {
        tabSessions := tabSessions[tabId := tabSessions[tabId].(username := username, lastAccessed := now)];
      }
    }

    /** `getTabUser`: null for an unknown tab or one nobody signed in on. */
    function GetTabUser(tabId: string): (r: Option<string>)
      reads this
      ensures tabId !in tabSessions ==> r.None?
      ensures tabId in tabSessions ==> r == tabSessions[tabId].username
    {
      if tabId in tabSessions then tabSessions[tabId].username else None
    }

    /** `removeTabSession`. */
    method RemoveTabSession(tabId: string)
      requires Valid()
      modifies this
      ensures Valid()
      ensures tabSessions == old(tabSessions) - {tabId}
      ensures GetTabUser(tabId).None?
    {
      tabSessions := tabSessions - {tabId};
    }

    /** `cleanupOldSessions`: exactly the tabs unused for more than an hour are removed. */
    method CleanupOldSessions(now: int)
      requires Valid()
      modifies this
      ensures Valid()
      ensures tabSessions == Fresh(old(tabSessions), now)
    {
      tabSessions := map k | k in tabSessions && !Stale(tabSessions[k], now) :: tabSessions[k];
    }

    /** `getAllTabSessions`: a copy of the table. */
    function GetAllTabSessions(): (r: map<string, TabSession>)
      reads this
      ensures r == tabSessions
    {
      tabSessions
    }

    /** `getUserTabCount`: 0 for a null name, else how many tabs that user is signed in on. */
    function GetUserTabCount(username: Option<string>): (n: nat)
      reads this
      ensures username.None? ==> n == 0
      ensures username.Some? ==> n == |TabsOf(tabSessions, username.value)|
      ensures n <= |tabSessions|
    {
      if username.None? then 0
      else
        var mine := TabsOf(tabSessions, username.value);
        assert mine <= tabSessions.Keys;
        CardinalityOfSubset(mine, tabSessions.Keys);
        |mine|
    }
  }

  lemma CardinalityOfSubset<T>(a: set<T>, b: set<T>)
    requires a <= b
    ensures |a| <= |b|
  {
    assert b == a + (b - a);
  }

  /** Signing a tab in as `u` that was not already `u`'s adds exactly one to `u`'s tab
      count; signing it in as someone else leaves `u`'s count unchanged if it was not `u`'s. */
  lemma SignInCount(tabs: map<string, TabSession>, tabId: string, u: string, who: Option<string>, now: int)
    requires tabId in tabs && tabs[tabId].username != Some(u)
    ensures var after := tabs[tabId := tabs[tabId].(username := who, lastAccessed := now)];
            |TabsOf(after, u)| == |TabsOf(tabs, u)| + (if who == Some(u) then 1 else 0)
  {
    var after := tabs[tabId := tabs[tabId].(username := who, lastAccessed := now)];
    if who == Some(u) {
      assert TabsOf(after, u) == TabsOf(tabs, u) + {tabId};
    } else {
      assert TabsOf(after, u) == TabsOf(tabs, u);
    }
  }
}
