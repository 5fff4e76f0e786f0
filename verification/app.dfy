/** The tab store of App.tsx. Each handler replaces the `tabs` list with a new
    one computed from the old; the list transforms are the functions below, the
    store is the class `TabStore` at the end, and the lemmas state what the
    transforms preserve: a non-empty list, distinct ids and exactly one active
    tab. */
module App {
  import opened Types
  import Text
  import Lists
  import Identity
  import TabContent

  const HomeUrl := "https://cyberproxy.internal"

  /** The single tab the store starts with: active, empty, at the home page.
      Its id reads as "tab-" and the number 1. */
  function InitialTab(proxy: VirtualProxy): (t: BrowserTab)
    ensures t.isActive && t.videos == [] && t.url == HomeUrl && t.proxy == proxy
    ensures |t.id| > 4 && t.id[..4] == "tab-" && Text.AllDigits(t.id[4..]) && Text.DecimalValue(t.id[4..]) == 1
  {
    var t := BrowserTab("tab-1", "Global Hub 1", HomeUrl, proxy, [], true);
    assert t.id[4..] == "1" && t.id[..4] == "tab-";
    t
  }

  /** The tab `addTab` creates when `count` tabs are open and `Date.now()` is
      `now`: active, empty, at the home page. Its id reads back as `now` and its
      title as the number count + 1. */
  /** The id `addTab` gives a tab created at time `now`. */
  function NewTabId(now: nat): string {
    "tab-" + Text.NatToDecimal(now)
  }

  function NewTab(count: nat, now: nat, proxy: VirtualProxy): (t: BrowserTab)
    ensures t.isActive && t.videos == [] && t.url == HomeUrl && t.proxy == proxy
    ensures |t.id| > 4 && t.id[..4] == "tab-" && Text.AllDigits(t.id[4..]) && Text.DecimalValue(t.id[4..]) == now
    ensures |t.title| > 11 && t.title[..11] == "Proxy Node " && Text.AllDigits(t.title[11..])
            && Text.DecimalValue(t.title[11..]) == count + 1
  {
    var id := NewTabId(now);
    var title := "Proxy Node " + Text.NatToDecimal(count + 1);
    assert id[4..] == Text.NatToDecimal(now) && id[..4] == "tab-";
    assert title[11..] == Text.NatToDecimal(count + 1) && title[..11] == "Proxy Node ";
    Text.DecimalRoundTrip(now);
    Text.DecimalRoundTrip(count + 1);
    BrowserTab(id, title, HomeUrl, proxy, [], true)
  }

  /** Tabs added at different times get different ids, and an added tab
      shares the initial tab's id only when added at time 1. */
  lemma NewTabIds(count: nat, now: nat, proxy: VirtualProxy, count': nat, now': nat, proxy': VirtualProxy)
    ensures NewTab(count, now, proxy).id == NewTab(count', now', proxy').id <==> now == now'
    ensures NewTab(count, now, proxy).id == InitialTab(proxy').id <==> now == 1
  {
    var a, b, c := NewTab(count, now, proxy).id, NewTab(count', now', proxy').id, InitialTab(proxy').id;
    if now == 1 {
      assert Text.NatToDecimal(1) == "1";
      assert a == "tab-1";
    }
    if a == b { assert a[4..] == b[4..]; }
    if a == c { assert a[4..] == c[4..]; }
  }

  function TabId(t: BrowserTab): string {
    t.id
  }

  /** The test of `tabs.filter(t => t.id !== id)`. */
  function IdIsNot(id: string): BrowserTab -> bool {
    (t: BrowserTab) => t.id != id
  }

  /** The test of `tabs.find(t => t.id === id)`. */
  function IdIs(id: string): BrowserTab -> bool {
    (t: BrowserTab) => t.id == id
  }

  function IsActive(t: BrowserTab): bool {
    t.isActive
  }

  // ---------------------------------------------------------------------------
  // Invariants.
  // ---------------------------------------------------------------------------

  /** Tab i is active and no other tab is. */
  predicate OnlyActive(tabs: seq<BrowserTab>, i: int) {
    0 <= i < |tabs| && tabs[i].isActive && forall j | 0 <= j < |tabs| && j != i :: !tabs[j].isActive
  }

  ghost predicate ExactlyOneActive(tabs: seq<BrowserTab>) {
    exists i :: OnlyActive(tabs, i)
  }

  predicate NoneActive(tabs: seq<BrowserTab>) {
    forall k | 0 <= k < |tabs| :: !tabs[k].isActive
  }

  /** Tab i is the first active tab. */
  predicate FirstActiveAt(tabs: seq<BrowserTab>, i: int) {
    0 <= i < |tabs| && tabs[i].isActive && forall j | 0 <= j < i :: !tabs[j].isActive
  }

  ghost predicate UniqueIds(tabs: seq<BrowserTab>) {
    Lists.DistinctKeys(tabs, TabId)
  }

  predicate HasId(tabs: seq<BrowserTab>, id: string) {
    exists k | 0 <= k < |tabs| :: tabs[k].id == id
  }

  lemma UniqueIdsAt(tabs: seq<BrowserTab>, i: int, j: int)
    requires UniqueIds(tabs) && 0 <= i < |tabs| && 0 <= j < |tabs| && i != j
    ensures tabs[i].id != tabs[j].id
  {
    if i < j { assert TabId(tabs[i]) != TabId(tabs[j]); } else { assert TabId(tabs[j]) != TabId(tabs[i]); }
  }

  /** Two lists with the same ids position by position agree on distinctness. */
  lemma UniqueIdsOfSameIds(a: seq<BrowserTab>, b: seq<BrowserTab>)
    requires UniqueIds(a) && |a| == |b| && forall k | 0 <= k < |a| :: a[k].id == b[k].id
    ensures UniqueIds(b)
  {
    forall i, j | 0 <= i < j < |b| ensures TabId(b[i]) != TabId(b[j]) {
      UniqueIdsAt(a, i, j);
    }
  }

  // ---------------------------------------------------------------------------
  // Derived views.
  // ---------------------------------------------------------------------------

  /** `tabs.find(t => t.isActive) || tabs[0]`. */
  function ActiveTabOf(tabs: seq<BrowserTab>): (t: BrowserTab)
    requires tabs != []
    ensures t in tabs
    ensures t.isActive || (NoneActive(tabs) && t == tabs[0])
    ensures !NoneActive(tabs) ==> exists i :: FirstActiveAt(tabs, i) && t == tabs[i]
  {
    match Lists.FindIndex(tabs, IsActive)
    case Some(i) => tabs[i]
    case None => tabs[0]
  }

  /** With exactly one active tab, the active-tab view is that tab. */
  lemma ActiveTabIsTheActiveOne(tabs: seq<BrowserTab>, i: int)
    requires OnlyActive(tabs, i)
    ensures ActiveTabOf(tabs) == tabs[i]
  {
    var found := Lists.FindIndex(tabs, IsActive);
    assert found.Some? && found.value == i;
  }

  /** `tabs.reduce((acc, t) => acc + t.videos.length, 0)`: the status bar's stream total. */
  function StreamCount(tabs: seq<BrowserTab>): (n: nat)
    ensures forall k | 0 <= k < |tabs| :: |tabs[k].videos| <= n
    ensures n == 0 <==> forall k | 0 <= k < |tabs| :: tabs[k].videos == []
    decreases |tabs|
  {
    if tabs == [] then 0 else StreamCount(tabs[..|tabs| - 1]) + |tabs[|tabs| - 1].videos|
  }

  /** The total is the sum over both parts of a split list. */
  lemma {:induction false} StreamCountConcat(a: seq<BrowserTab>, b: seq<BrowserTab>)
    ensures StreamCount(a + b) == StreamCount(a) + StreamCount(b)
    decreases |b|
  {
    if b == [] {
      assert a + b == a;
    } else {
      var ab := a + b;
      assert ab[..|ab| - 1] == a + b[..|b| - 1];
      StreamCountConcat(a, b[..|b| - 1]);
    }
  }

  /** The total depends only on the video lists, tab by tab. */
  lemma {:induction false} StreamCountOfSameVideos(a: seq<BrowserTab>, b: seq<BrowserTab>)
    requires |a| == |b| && forall k | 0 <= k < |a| :: a[k].videos == b[k].videos
    ensures StreamCount(a) == StreamCount(b)
    decreases |a|
  {
    if a != [] {
      StreamCountOfSameVideos(a[..|a| - 1], b[..|b| - 1]);
    }
  }

  /** Replacing one tab changes the total by the difference of its video counts. */
  lemma {:induction false} StreamCountUpdate(tabs: seq<BrowserTab>, k: int, t: BrowserTab)
    requires 0 <= k < |tabs|
    ensures StreamCount(tabs[k := t]) + |tabs[k].videos| == StreamCount(tabs) + |t.videos|
    decreases |tabs|
  {
    var n := |tabs|;
    var updated := tabs[k := t];
    if k == n - 1 {
      assert updated[..n - 1] == tabs[..n - 1];
    } else {
      assert updated[..n - 1] == tabs[..n - 1][k := t];
      StreamCountUpdate(tabs[..n - 1], k, t);
    }
  }

  // ---------------------------------------------------------------------------
  // The list transforms.
  // ---------------------------------------------------------------------------

  /** `prev.map(t => ({ ...t, isActive: false }))`. */
  function Deactivated(tabs: seq<BrowserTab>): (r: seq<BrowserTab>)
    ensures |r| == |tabs|
    ensures forall k | 0 <= k < |tabs| :: r[k] == tabs[k].(isActive := false)
    decreases |tabs|
  {
    if tabs == [] then [] else [tabs[0].(isActive := false)] + Deactivated(tabs[1..])
  }

  /** `addTab`'s new list: every old tab deactivated, then the new tab. */
  function Added(tabs: seq<BrowserTab>, newTab: BrowserTab): (r: seq<BrowserTab>)
    ensures |r| == |tabs| + 1 && r[|tabs|] == newTab
    ensures forall k | 0 <= k < |tabs| :: r[k] == tabs[k].(isActive := false)
  {
    Deactivated(tabs) + [newTab]
  }

  /** `prev.map(t => ({ ...t, isActive: t.id === id }))`. */
  function Switched(tabs: seq<BrowserTab>, id: string): (r: seq<BrowserTab>)
    ensures |r| == |tabs|
    ensures forall k | 0 <= k < |tabs| :: r[k] == tabs[k].(isActive := tabs[k].id == id)
    decreases |tabs|
  {
    if tabs == [] then [] else [tabs[0].(isActive := tabs[0].id == id)] + Switched(tabs[1..], id)
  }

  /** `prev.map(t => t.id === updated.id ? updated : t)`. */
  function Replaced(tabs: seq<BrowserTab>, updated: BrowserTab): (r: seq<BrowserTab>)
    ensures |r| == |tabs|
    ensures forall k | 0 <= k < |tabs| :: r[k] == if tabs[k].id == updated.id then updated else tabs[k]
    decreases |tabs|
  {
    if tabs == [] then []
    else [if tabs[0].id == updated.id then updated else tabs[0]] + Replaced(tabs[1..], updated)
  }

  /** `tabs.filter(t => t.id !== id)`. */
  function TabsWithout(tabs: seq<BrowserTab>, id: string): (r: seq<BrowserTab>)
    ensures |r| <= |tabs|
    ensures forall k | 0 <= k < |r| :: r[k].id != id && r[k] in tabs
    ensures forall k | 0 <= k < |tabs| && tabs[k].id != id :: tabs[k] in r
    ensures !HasId(tabs, id) ==> r == tabs
  {
    Lists.Filter(tabs, IdIsNot(id))
  }

  /** `tabs.find(t => t.id === id)?.isActive`: the first tab with that id is active. */
  function ClosingActive(tabs: seq<BrowserTab>, id: string): (b: bool)
    ensures b <==> exists k | 0 <= k < |tabs| ::
                     tabs[k].id == id && tabs[k].isActive && forall j | 0 <= j < k :: tabs[j].id != id
  {
    var found := Lists.FindIndex(tabs, IdIs(id));
    found.Some? && tabs[found.value].isActive
  }

  /** The first tab made active (`newTabs[0].isActive = true`). */
  function FirstActivated(tabs: seq<BrowserTab>): (r: seq<BrowserTab>)
    requires tabs != []
    ensures |r| == |tabs| && r[0].isActive
    ensures forall k | 0 <= k < |tabs| :: r[k].(isActive := tabs[k].isActive) == tabs[k]
    ensures forall k | 0 < k < |tabs| :: r[k] == tabs[k]
  {
    tabs[0 := tabs[0].(isActive := true)]
  }

  /** `closeTab(id)`'s new list. A single tab is never closed. When the closed
      tab was active, the first remaining tab becomes active; if no tab remains
      (every tab had that id), `newTabs[0]` is undefined, the handler throws
      before `setTabs`, and the list stays as it was. */
  function Closed(tabs: seq<BrowserTab>, id: string): (r: seq<BrowserTab>)
    ensures |tabs| == 1 ==> r == tabs
    ensures !HasId(tabs, id) ==> r == tabs
    ensures |r| <= |tabs|
  {
    if |tabs| == 1 then tabs
    else
      var remaining := TabsWithout(tabs, id);
      if ClosingActive(tabs, id) then
        if remaining == [] then tabs else FirstActivated(remaining)
      else remaining
  }

  // ---------------------------------------------------------------------------
  // What the transforms preserve.
  // ---------------------------------------------------------------------------

  /** The initial list: one tab, `tab-1`, active, without videos. */
  lemma InitialStateValid(proxy: VirtualProxy)
    ensures var tabs := [InitialTab(proxy)];
      && OnlyActive(tabs, 0) && UniqueIds(tabs) && ActiveTabOf(tabs) == InitialTab(proxy)
      && tabs[0].id == "tab-1" && tabs[0].videos == [] && StreamCount(tabs) == 0
  {
    var tabs := [InitialTab(proxy)];
    assert tabs[..0] == [];
    ActiveTabIsTheActiveOne(tabs, 0);
  }

  /** `addTab` makes its new tab the only active one (so the active-tab view
      shows it), numbered after the tabs already open. */
  lemma AddedActivatesNewTab(tabs: seq<BrowserTab>, count: nat, now: nat, proxy: VirtualProxy)
    ensures var r := Added(tabs, NewTab(count, now, proxy));
      && OnlyActive(r, |tabs|) && ActiveTabOf(r) == NewTab(count, now, proxy)
      && r[|tabs|].title == "Proxy Node " + Text.NatToDecimal(count + 1) && r[|tabs|].videos == []
  {
    ActiveTabIsTheActiveOne(Added(tabs, NewTab(count, now, proxy)), |tabs|);
  }

  /** `addTab` leaves the stream total as it was. */
  lemma AddedKeepsStreamCount(tabs: seq<BrowserTab>, newTab: BrowserTab)
    requires newTab.videos == []
    ensures StreamCount(Added(tabs, newTab)) == StreamCount(tabs)
  {
    StreamCountOfSameVideos(Deactivated(tabs), tabs);
    StreamCountConcat(Deactivated(tabs), [newTab]);
    assert [newTab][..0] == [];
  }

  /** `addTab` keeps the ids distinct when the new id is fresh. */
  lemma AddedKeepsIdsUnique(tabs: seq<BrowserTab>, newTab: BrowserTab)
    requires UniqueIds(tabs) && !HasId(tabs, newTab.id)
    ensures UniqueIds(Added(tabs, newTab))
  {
    var r := Added(tabs, newTab);
    forall i, j | 0 <= i < j < |r| ensures TabId(r[i]) != TabId(r[j]) {
      if j < |tabs| { UniqueIdsAt(tabs, i, j); }
    }
  }

  /** With distinct ids, the filter of `closeTab` removes exactly the one tab
      with that id and keeps the others in order. */
  lemma WithoutUniqueId(tabs: seq<BrowserTab>, c: int)
    requires UniqueIds(tabs) && 0 <= c < |tabs|
    ensures TabsWithout(tabs, tabs[c].id) == tabs[..c] + tabs[c + 1..]
  {
    var keep := IdIsNot(tabs[c].id);
    var before, after := tabs[..c], tabs[c + 1..];
    assert tabs == before + ([tabs[c]] + after);
    Lists.FilterConcat(before, [tabs[c]] + after, keep);
    Lists.FilterConcat([tabs[c]], after, keep);
    forall k | 0 <= k < |before| ensures keep(before[k]) {
      UniqueIdsAt(tabs, k, c);
    }
    forall k | 0 <= k < |after| ensures keep(after[k]) {
      UniqueIdsAt(tabs, c + 1 + k, c);
    }
    assert Lists.Filter([tabs[c]], keep) == [];
  }

  /** With distinct ids, `closeTab` tests whether the tab being closed is active. */
  lemma ClosingActiveIsClosedTab(tabs: seq<BrowserTab>, c: int)
    requires UniqueIds(tabs) && 0 <= c < |tabs|
    ensures ClosingActive(tabs, tabs[c].id) <==> tabs[c].isActive
  {
    var found := Lists.FindIndex(tabs, IdIs(tabs[c].id));
    assert IdIs(tabs[c].id)(tabs[c]);
    if found.value != c { UniqueIdsAt(tabs, found.value, c); }
  }

  /** With distinct ids and more than one tab, closing tab c removes exactly
      that tab; when it was active, the first remaining tab becomes active. */
  lemma ClosedShape(tabs: seq<BrowserTab>, c: int)
    requires UniqueIds(tabs) && |tabs| > 1 && 0 <= c < |tabs|
    ensures var remaining := tabs[..c] + tabs[c + 1..];
      && remaining != []
      && Closed(tabs, tabs[c].id) == if tabs[c].isActive then FirstActivated(remaining) else remaining
  {
    WithoutUniqueId(tabs, c);
    ClosingActiveIsClosedTab(tabs, c);
  }

  /** Removing the tab at position c removes its streams from the total. */
  lemma StreamCountWithout(tabs: seq<BrowserTab>, c: int)
    requires 0 <= c < |tabs|
    ensures StreamCount(tabs[..c] + tabs[c + 1..]) + |tabs[c].videos| == StreamCount(tabs)
  {
    assert tabs == tabs[..c] + ([tabs[c]] + tabs[c + 1..]);
    StreamCountConcat(tabs[..c], [tabs[c]] + tabs[c + 1..]);
    StreamCountConcat([tabs[c]], tabs[c + 1..]);
    StreamCountConcat(tabs[..c], tabs[c + 1..]);
    assert [tabs[c]][..0] == [];
  }

  /** Removing one tab from a list with distinct ids keeps them distinct. */
  lemma UniqueIdsWithout(tabs: seq<BrowserTab>, c: int)
    requires UniqueIds(tabs) && 0 <= c < |tabs|
    ensures UniqueIds(tabs[..c] + tabs[c + 1..])
  {
    var rem := tabs[..c] + tabs[c + 1..];
    forall i, j | 0 <= i < j < |rem| ensures TabId(rem[i]) != TabId(rem[j]) {
      var i' := if i < c then i else i + 1;
      var j' := if j < c then j else j + 1;
      assert rem[i] == tabs[i'] && rem[j] == tabs[j'];
      UniqueIdsAt(tabs, i', j');
    }
  }

  /** Removing tab c from a list whose only active tab is i leaves no tab
      active when c is i, and otherwise leaves that tab, shifted, the only
      active one. */
  lemma ActiveAfterRemoval(tabs: seq<BrowserTab>, i: int, c: int)
    requires OnlyActive(tabs, i) && 0 <= c < |tabs|
    ensures var rem := tabs[..c] + tabs[c + 1..];
      && (i == c ==> NoneActive(rem))
      && (i < c ==> OnlyActive(rem, i))
      && (i > c ==> OnlyActive(rem, i - 1))
  {
    var rem := tabs[..c] + tabs[c + 1..];
    forall k | 0 <= k < |rem| ensures rem[k] == tabs[if k < c then k else k + 1] {}
  }

  /** With distinct ids, closing never empties the list and keeps the ids
      distinct. */
  lemma ClosedKeepsIdsUnique(tabs: seq<BrowserTab>, id: string)
    requires UniqueIds(tabs) && tabs != []
    ensures Closed(tabs, id) != [] && UniqueIds(Closed(tabs, id))
  {
    if |tabs| > 1 && HasId(tabs, id) {
      var c :| 0 <= c < |tabs| && tabs[c].id == id;
      ClosedShape(tabs, c);
      UniqueIdsWithout(tabs, c);
      UniqueIdsOfSameIds(tabs[..c] + tabs[c + 1..], Closed(tabs, id));
    }
  }

  /** With distinct ids and more than one tab, closing tab c leaves one tab
      fewer and removes exactly that tab's streams from the total. */
  lemma ClosedRemovesOneTab(tabs: seq<BrowserTab>, c: int)
    requires UniqueIds(tabs) && |tabs| > 1 && 0 <= c < |tabs|
    ensures |Closed(tabs, tabs[c].id)| == |tabs| - 1
    ensures StreamCount(Closed(tabs, tabs[c].id)) + |tabs[c].videos| == StreamCount(tabs)
  {
    ClosedShape(tabs, c);
    StreamCountOfSameVideos(tabs[..c] + tabs[c + 1..], Closed(tabs, tabs[c].id));
    StreamCountWithout(tabs, c);
  }

  /** Closing a tab in a list with distinct ids and exactly one active tab
      keeps exactly one active tab. If the closed tab was the active one, the
      first remaining tab is now the active one; otherwise the active tab
      stays active. */
  lemma ClosedKeepsOneActive(tabs: seq<BrowserTab>, id: string, i: int)
    requires UniqueIds(tabs) && OnlyActive(tabs, i)
    ensures ExactlyOneActive(Closed(tabs, id))
    ensures |tabs| > 1 && tabs[i].id == id ==> OnlyActive(Closed(tabs, id), 0)
    ensures tabs[i].id != id ==> ActiveTabOf(Closed(tabs, id)) == tabs[i]
  {
    if |tabs| == 1 || !HasId(tabs, id) {
      ActiveTabIsTheActiveOne(tabs, i);
      return;
    }
    var c :| 0 <= c < |tabs| && tabs[c].id == id;
    ClosedShape(tabs, c);
    ActiveAfterRemoval(tabs, i, c);
    var r := Closed(tabs, id);
    if c == i {
      assert OnlyActive(r, 0);
    } else {
      UniqueIdsAt(tabs, i, c);
      var i' := if i < c then i else i - 1;
      assert r[i'] == tabs[i];
      ActiveTabIsTheActiveOne(r, i');
    }
  }

  /** `switchTab` changes only the active flags: a tab is active afterwards
      exactly when it has the chosen id. With distinct ids and an id present
      that tab is the only active one; with an unknown id no tab is active and
      the active-tab view falls back to the first tab. */
  lemma SwitchedActivatesExactly(tabs: seq<BrowserTab>, id: string)
    ensures forall k | 0 <= k < |tabs| :: Switched(tabs, id)[k].isActive <==> tabs[k].id == id
    ensures forall k | 0 <= k < |tabs| :: Switched(tabs, id)[k].(isActive := tabs[k].isActive) == tabs[k]
    ensures UniqueIds(tabs) ==> UniqueIds(Switched(tabs, id))
    ensures UniqueIds(tabs) ==> forall k | 0 <= k < |tabs| && tabs[k].id == id :: OnlyActive(Switched(tabs, id), k)
    ensures !HasId(tabs, id) ==> NoneActive(Switched(tabs, id))
    ensures !HasId(tabs, id) && tabs != [] ==> ActiveTabOf(Switched(tabs, id)) == Switched(tabs, id)[0]
    ensures StreamCount(Switched(tabs, id)) == StreamCount(tabs)
  {
    var r := Switched(tabs, id);
    StreamCountOfSameVideos(tabs, r);
    if UniqueIds(tabs) {
      UniqueIdsOfSameIds(tabs, r);
      forall k | 0 <= k < |tabs| && tabs[k].id == id ensures OnlyActive(r, k) {
        forall j | 0 <= j < |tabs| && j != k ensures !r[j].isActive {
          UniqueIdsAt(tabs, j, k);
        }
      }
    }
  }

  /** `updateTabData(u)` keeps every id, so distinct ids stay distinct, and
      with an unknown id it changes nothing. */
  lemma ReplacedKeepsIds(tabs: seq<BrowserTab>, u: BrowserTab)
    ensures forall k | 0 <= k < |tabs| :: Replaced(tabs, u)[k].id == tabs[k].id
    ensures UniqueIds(tabs) ==> UniqueIds(Replaced(tabs, u))
    ensures !HasId(tabs, u.id) ==> Replaced(tabs, u) == tabs
  {
    if UniqueIds(tabs) {
      UniqueIdsOfSameIds(tabs, Replaced(tabs, u));
    }
  }

  /** When u carries the active flag of the tab it replaces (as the edits of
      TabContent do), the active tab stays where it was. */
  lemma ReplacedKeepsActiveTab(tabs: seq<BrowserTab>, u: BrowserTab, i: int)
    requires forall k | 0 <= k < |tabs| && tabs[k].id == u.id :: tabs[k].isActive == u.isActive
    requires OnlyActive(tabs, i)
    ensures OnlyActive(Replaced(tabs, u), i)
  {
  }

  /** With distinct ids, replacing the tab at position k by an edit of it that
      keeps its id puts the edit at that position and nowhere else. */
  lemma ReplacedAt(tabs: seq<BrowserTab>, k: int, u: BrowserTab)
    requires UniqueIds(tabs) && 0 <= k < |tabs| && u.id == tabs[k].id
    ensures Replaced(tabs, u) == tabs[k := u]
  {
    forall j | 0 <= j < |tabs| && j != k ensures tabs[j].id != u.id {
      UniqueIdsAt(tabs, j, k);
    }
  }

  /** A tab's `addVideo` edit, stored through `updateTabData`, raises the
      stream total by exactly one; its `removeVideo` edit never raises it. */
  lemma VideoEditsChangeStreamCount(tabs: seq<BrowserTab>, k: int, urlDraw: Identity.Random, videoId: string)
    requires UniqueIds(tabs) && 0 <= k < |tabs|
    ensures StreamCount(Replaced(tabs, TabContent.AddVideo(tabs[k], urlDraw, videoId))) == StreamCount(tabs) + 1
    ensures StreamCount(Replaced(tabs, TabContent.RemoveVideo(tabs[k], videoId))) <= StreamCount(tabs)
  {
    var added := TabContent.AddVideo(tabs[k], urlDraw, videoId);
    ReplacedAt(tabs, k, added);
    StreamCountUpdate(tabs, k, added);
    var removed := TabContent.RemoveVideo(tabs[k], videoId);
    ReplacedAt(tabs, k, removed);
    StreamCountUpdate(tabs, k, removed);
  }

  /** `rotateIP` hands the store, after its delay, a copy of the tab taken when
      the button was pressed (every tab's content stays mounted). If the user
      switched to another tab in the meantime, the copy still carries
      `isActive: true`, and storing it leaves two tabs active. */
  lemma StaleRotationLeavesTwoActive(tabs: seq<BrowserTab>, i: int, j: int, draws: Identity.IpDraws)
    requires UniqueIds(tabs) && OnlyActive(tabs, i) && 0 <= j < |tabs| && j != i
    ensures var r := Replaced(tabs, TabContent.RotateIP(tabs[j].(isActive := true), draws));
      r[i].isActive && r[j].isActive && !ExactlyOneActive(r)
  {
    var stale := TabContent.RotateIP(tabs[j].(isActive := true), draws);
    ReplacedAt(tabs, j, stale);
    var r := Replaced(tabs, stale);
    assert r[i] == tabs[i] && r[j] == stale;
  }

  // ---------------------------------------------------------------------------
  // The store.
  // ---------------------------------------------------------------------------

  class TabStore {
    var tabs: seq<BrowserTab>

    /** The list is never empty and no two tabs share an id. */
    ghost predicate Valid()
      reads this
    {
      tabs != [] && UniqueIds(tabs)
    }

    constructor (draws: Identity.ProxyDraws)
      ensures Valid() && tabs == [InitialTab(Identity.GenerateRandomProxy(draws))]
    {
      tabs := [InitialTab(Identity.GenerateRandomProxy(draws))];
    }

    /** `activeTab`. */
    function ActiveTab(): (t: BrowserTab)
      reads this
      requires Valid()
      ensures t in tabs
      ensures NoneActive(tabs) ==> t == tabs[0]
      ensures !NoneActive(tabs) ==> exists i :: FirstActiveAt(tabs, i) && t == tabs[i]
    {
      ActiveTabOf(tabs)
    }

    /** `addTab` at time `now`: its id is fresh, as distinct `Date.now()`
        values make it. */
    method AddTab(now: nat, draws: Identity.ProxyDraws)
      requires Valid() && !HasId(tabs, NewTabId(now))
      modifies this
      ensures Valid()
      ensures tabs == Added(old(tabs), NewTab(|old(tabs)|, now, Identity.GenerateRandomProxy(draws)))
      ensures StreamCount(tabs) == old(StreamCount(tabs))
    {
      var newTab := NewTab(|tabs|, now, Identity.GenerateRandomProxy(draws));
      AddedKeepsIdsUnique(tabs, newTab);
      AddedKeepsStreamCount(tabs, newTab);
      tabs := Deactivated(tabs) + [newTab];
    }

    method CloseTab(id: string)
      requires Valid()
      modifies this
      ensures Valid()
      ensures tabs == Closed(old(tabs), id)
      ensures |old(tabs)| > 1 ==> forall c | 0 <= c < |old(tabs)| && old(tabs)[c].id == id ::
                |tabs| == |old(tabs)| - 1 && StreamCount(tabs) + |old(tabs)[c].videos| == old(StreamCount(tabs))
    {
      if |tabs| == 1 {
        return;
      }
      ClosedKeepsIdsUnique(tabs, id);
      forall c | 0 <= c < |tabs| && tabs[c].id == id
        ensures |Closed(tabs, id)| == |tabs| - 1 && StreamCount(Closed(tabs, id)) + |tabs[c].videos| == StreamCount(tabs)
      {
        ClosedRemovesOneTab(tabs, c);
      }
      var newTabs := TabsWithout(tabs, id);
      if ClosingActive(tabs, id) {
        if newTabs == [] {
          // `newTabs[0].isActive = true` throws: the list is not replaced.
          return;
        }
        newTabs := newTabs[0 := newTabs[0].(isActive := true)];
      }
      tabs := newTabs;
    }

    method SwitchTab(id: string)
      requires Valid()
      modifies this
      ensures Valid()
      ensures tabs == Switched(old(tabs), id)
      ensures StreamCount(tabs) == old(StreamCount(tabs))
    {
      SwitchedActivatesExactly(tabs, id);
      tabs := Switched(tabs, id);
    }

    method UpdateTabData(updated: BrowserTab)
      requires Valid()
      modifies this
      ensures Valid()
      ensures tabs == Replaced(old(tabs), updated)
    {
      ReplacedKeepsIds(tabs, updated);
      tabs := Replaced(tabs, updated);
    }
  }
}
