/** Which channels a filter shows (source/iptv/iptv.c): the lists that the cached
    counts and the visible index stand for. */
module IptvRows {
  // char arrays of C, without the terminating zero
  function Lower(c: char): char {
    if 'A' <= c <= 'Z' then c - 'A' + 'a' else c
  }

  function Fold(s: string): (t: string)
    ensures |t| == |s|
    ensures forall i :: 0 <= i < |s| ==> t[i] == Lower(s[i])
  {
    seq(|s|, i requires 0 <= i < |s| => Lower(s[i]))
  }

  /** strcasecmp() == 0, in the C locale. */
  predicate SameText(a: string, b: string) {
    Fold(a) == Fold(b)
  }

  /** One letter is the other, or its capital. */
  predicate SameLetter(a: char, b: char) {
    a == b || ('A' <= a <= 'Z' && b as int == a as int + 32) || ('A' <= b <= 'Z' && a as int == b as int + 32)
  }

  lemma SameTextExactly(a: string, b: string)
    ensures SameText(a, b) <==> |a| == |b| && forall i :: 0 <= i < |a| ==> SameLetter(a[i], b[i])
  {
    if |a| == |b| && forall i :: 0 <= i < |a| ==> SameLetter(a[i], b[i]) {
      assert forall i :: 0 <= i < |a| ==> Fold(a)[i] == Fold(b)[i];
    }
    if SameText(a, b) {
      forall i | 0 <= i < |a| ensures SameLetter(a[i], b[i]) {
        assert Fold(a)[i] == Fold(b)[i];
      }
    }
  }

  /** iptv_contains_casefold. */
  predicate Contains(haystack: string, needle: string) {
    needle == "" || exists i :: 0 <= i < |haystack| && FoundAt(haystack, needle, i)
  }

  predicate FoundAt(haystack: string, needle: string, i: nat) {
    i + |needle| <= |haystack| && SameText(haystack[i..i + |needle|], needle)
  }

  ghost predicate Around(haystack: string, before: string, found: string, behind: string) {
    haystack == before + found + behind
  }

  /** Somewhere in the text stands the needle, whatever its case. */
  lemma ContainsExactly(haystack: string, needle: string)
    ensures Contains(haystack, needle) <==> exists before: string, found: string, behind: string ::
      Around(haystack, before, found, behind) && SameText(found, needle)
  {
    if Contains(haystack, needle) {
      if needle == "" {
        assert Around(haystack, "", "", haystack) && SameText("", needle);
      } else {
        var i: nat :| i < |haystack| && FoundAt(haystack, needle, i);
        var n := i + |needle|;
        assert Around(haystack, haystack[..i], haystack[i..n], haystack[n..]);
      }
    }
    if before: string, found: string, behind: string :|
      Around(haystack, before, found, behind) && SameText(found, needle)
    {
      assert |found| == |Fold(found)| == |Fold(needle)| == |needle|;
      assert haystack[|before|..|before| + |needle|] == found;
      assert FoundAt(haystack, needle, |before|);
    }
  }

  /** The loop of iptv_contains_casefold. */
  method Search(haystack: string, needle: string) returns (found: bool)
    ensures found == Contains(haystack, needle)
  {
    if needle == "" {
      return true;
    }
    var i := 0;
    while i < |haystack|
      invariant i <= |haystack| && forall k: nat :: k < i ==> !FoundAt(haystack, needle, k)
    {
      if FoundAt(haystack, needle, i) {
        return true;
      }
      i := i + 1;
    }
    return false;
  }

  datatype Channel = Channel(
    id: nat, sourceId: nat, name: string, group: string, tvgId: string, favorite: bool, recent: bool)

  /** The user's settings besides the filter; source 0 means all. */
  datatype View = View(groups: seq<string>, source: nat, search: string)

  const ALL: nat := 0
  const FAVORITES: nat := 1
  const RECENT: nat := 2
  const FIRST_GROUP: nat := 3

  /** iptv_channel_matches_filter_locked. */
  predicate Matches(c: Channel, v: View, filter: nat) {
    && (v.source != 0 ==> c.sourceId == v.source)
    && (filter == FAVORITES ==> c.favorite)
    && (filter == RECENT ==> c.recent)
    && (filter >= FIRST_GROUP ==>
          filter - FIRST_GROUP < |v.groups| && SameText(c.group, v.groups[filter - FIRST_GROUP]))
    && (Contains(c.name, v.search) || Contains(c.group, v.search) || Contains(c.tvgId, v.search))
  }

  /** Positions of the matching channels, in catalog order. */
  function Rows(channels: seq<Channel>, v: View, filter: nat): (rows: seq<nat>)
    ensures |rows| <= |channels|
  {
    if channels == [] then []
    else
      var n := |channels| - 1;
      Rows(channels[..n], v, filter) + (if Matches(channels[n], v, filter) then [n] else [])
  }

  predicate Hits(c: Channel, v: View, filter: nat, id: nat) {
    c.id == id && Matches(c, v, filter)
  }

  /** The first matching channel with this id, or the number of channels. */
  function FirstHit(channels: seq<Channel>, v: View, filter: nat, id: nat): (k: nat)
    ensures k <= |channels|
  {
    if channels == [] then 0
    else
      var n := |channels| - 1;
      var k := FirstHit(channels[..n], v, filter, id);
      if k < n || Hits(channels[n], v, filter, id) then k else n + 1
  }

  /** One position for each recent id that has a match, latest id first. */
  function RecentRows(channels: seq<Channel>, v: View, filter: nat, ids: seq<nat>): (rows: seq<nat>)
    ensures |rows| <= |ids|
  {
    if ids == [] then []
    else
      var n := |ids| - 1;
      var k := FirstHit(channels, v, filter, ids[n]);
      RecentRows(channels, v, filter, ids[..n]) + (if k < |channels| then [k] else [])
  }

  /** The visible list that selecting the filter builds. */
  function VisibleList(channels: seq<Channel>, v: View, ids: seq<nat>, filter: nat): seq<nat> {
    if filter == RECENT then RecentRows(channels, v, RECENT, ids) else Rows(channels, v, filter)
  }

  // ---------------------------------------------------------------- what they are

  lemma {:induction false} FirstHitIsFirst(channels: seq<Channel>, v: View, filter: nat, id: nat)
    ensures var k := FirstHit(channels, v, filter, id);
      && (k < |channels| ==> Hits(channels[k], v, filter, id))
      && forall i :: 0 <= i < k ==> !Hits(channels[i], v, filter, id)
  {
    if channels != [] { FirstHitIsFirst(channels[..|channels| - 1], v, filter, id); }
  }

  ghost predicate InHistory(channels: seq<Channel>, ids: seq<nat>, row: nat) {
    row < |channels| && channels[row].id in ids
  }

  ghost predicate AllInHistory(channels: seq<Channel>, ids: seq<nat>, rows: seq<nat>) {
    forall k :: 0 <= k < |rows| ==> InHistory(channels, ids, rows[k])
  }

  lemma {:induction false} RecentRowsInHistory(channels: seq<Channel>, v: View, filter: nat, ids: seq<nat>)
    ensures AllInHistory(channels, ids, RecentRows(channels, v, filter, ids))
  {
    if ids != [] {
      var n := |ids| - 1;
      RecentRowsInHistory(channels, v, filter, ids[..n]);
      FirstHitIsFirst(channels, v, filter, ids[n]);
      var rows, init := RecentRows(channels, v, filter, ids), RecentRows(channels, v, filter, ids[..n]);
      assert ids == ids[..n] + [ids[n]];
      forall k | 0 <= k < |rows| ensures InHistory(channels, ids, rows[k]) {
        if k < |init| { assert rows[k] == init[k] && InHistory(channels, ids[..n], init[k]); }
      }
    }
  }

  ghost predicate Distinct<T>(s: seq<T>) {
    forall i, j :: 0 <= i < j < |s| ==> s[i] != s[j]
  }

  ghost predicate Rising(rows: seq<nat>) {
    forall i, j :: 0 <= i < j < |rows| ==> rows[i] < rows[j]
  }

  /** Every channel that matches, once, in catalog order. */
  lemma {:induction false} RowsExactly(channels: seq<Channel>, v: View, filter: nat, i: nat)
    ensures Rising(Rows(channels, v, filter))
    ensures forall k :: 0 <= k < |Rows(channels, v, filter)| ==> Rows(channels, v, filter)[k] < |channels|
    ensures i in Rows(channels, v, filter) <==> i < |channels| && Matches(channels[i], v, filter)
  {
    if channels != [] {
      var n := |channels| - 1;
      RowsExactly(channels[..n], v, filter, i);
    }
  }

  /** Exactly the first match of each recent id that has one. */
  lemma {:induction false} RecentRowsExactly(channels: seq<Channel>, v: View, filter: nat, ids: seq<nat>, i: nat)
    ensures i in RecentRows(channels, v, filter, ids) <==>
      i < |channels| && channels[i].id in ids && FirstHit(channels, v, filter, channels[i].id) == i
  {
    if ids != [] {
      var n := |ids| - 1;
      RecentRowsExactly(channels, v, filter, ids[..n], i);
      FirstHitIsFirst(channels, v, filter, ids[n]);
      assert ids == ids[..n] + [ids[n]];
    }
  }

  /** Where in the history the channel of a row stands. */
  ghost predicate Stands(channels: seq<Channel>, ids: seq<nat>, row: nat, p: nat) {
    p < |ids| && row < |channels| && channels[row].id == ids[p]
  }

  /** They come in the order of the history. */
  lemma {:induction false} RecentRowsInOrder(channels: seq<Channel>, v: View, filter: nat, ids: seq<nat>,
                                             a: nat, b: nat)
    requires a < b < |RecentRows(channels, v, filter, ids)|
    ensures var rows := RecentRows(channels, v, filter, ids);
      exists p: nat, q: nat :: p < q && Stands(channels, ids, rows[a], p) && Stands(channels, ids, rows[b], q)
  {
    var n := |ids| - 1;
    var rows, init := RecentRows(channels, v, filter, ids), RecentRows(channels, v, filter, ids[..n]);
    RecentRowsInHistory(channels, v, filter, ids[..n]);
    FirstHitIsFirst(channels, v, filter, ids[n]);
    assert InHistory(channels, ids[..n], init[a]);
    if b < |init| {
      RecentRowsInOrder(channels, v, filter, ids[..n], a, b);
      var p: nat, q: nat :|
        p < q && Stands(channels, ids[..n], init[a], p) && Stands(channels, ids[..n], init[b], q);
      assert Stands(channels, ids, rows[a], p) && Stands(channels, ids, rows[b], q);
    } else {
      var p: nat :| p < n && ids[..n][p] == channels[init[a]].id;
      assert Stands(channels, ids, rows[a], p) && Stands(channels, ids, rows[b], n);
    }
  }

  lemma {:induction false} RecentRowsDistinct(channels: seq<Channel>, v: View, filter: nat, ids: seq<nat>)
    requires Distinct(ids)
    ensures Distinct(RecentRows(channels, v, filter, ids))
  {
    if ids != [] {
      var n := |ids| - 1;
      RecentRowsDistinct(channels, v, filter, ids[..n]);
      RecentRowsInHistory(channels, v, filter, ids[..n]);
      FirstHitIsFirst(channels, v, filter, ids[n]);
      var init := RecentRows(channels, v, filter, ids[..n]);
      assert AllInHistory(channels, ids[..n], init);
      assert ids[n] !in ids[..n];
    }
  }

  lemma {:induction false} FewDistinct(rows: seq<nat>, n: nat)
    requires Distinct(rows) && forall k :: 0 <= k < |rows| ==> rows[k] < n
    ensures |rows| <= n
  {
    if rows == [] {
    } else if k: nat :| k < |rows| && rows[k] == n - 1 {
      FewDistinct(rows[..k] + rows[k + 1..], n - 1);
    } else {
      assert rows[0] < n;
      FewDistinct(rows, n - 1);
    }
  }

  /** So the rows of distinct ids fit an index with one place per channel. */
  lemma RecentRowsFit(channels: seq<Channel>, v: View, filter: nat, ids: seq<nat>)
    requires Distinct(ids)
    ensures |RecentRows(channels, v, filter, ids)| <= |channels|
  {
    RecentRowsDistinct(channels, v, filter, ids);
    RecentRowsInHistory(channels, v, filter, ids);
    var rows := RecentRows(channels, v, filter, ids);
    assert AllInHistory(channels, ids, rows);
    FewDistinct(RecentRows(channels, v, filter, ids), |channels|);
  }

  // -------------------------------------------------------- which channels they are

  /** A channel of the chosen source, with the search somewhere in its name, group
      or guide id. */
  ghost predicate Chosen(c: Channel, v: View) {
    && (v.source == 0 || c.sourceId == v.source)
    && exists text :: text in {c.name, c.group, c.tvgId} && Contains(text, v.search)
  }

  /** What each filter is for: all of those, favorites, recently played ones, and
      one for each group. */
  ghost predicate Belongs(c: Channel, v: View, ids: seq<nat>, filter: nat) {
    Chosen(c, v) &&
    if filter == 0 then true
    else if filter == 1 then c.favorite
    else if filter == 2 then c.id in ids
    else filter - 3 < |v.groups| && SameText(c.group, v.groups[filter - 3])
  }

  lemma MatchesBelongs(c: Channel, v: View, ids: seq<nat>, filter: nat)
    requires c.recent <==> c.id in ids
    ensures Matches(c, v, filter) <==> Belongs(c, v, ids, filter)
  {
    assert c.name in {c.name, c.group, c.tvgId} && c.group in {c.name, c.group, c.tvgId};
    hide Contains, SameText;
  }

  /** The first of the channels with its id that belongs. */
  ghost predicate FirstBelongs(channels: seq<Channel>, v: View, ids: seq<nat>, i: nat)
    requires i < |channels|
  {
    && Belongs(channels[i], v, ids, RECENT)
    && forall k :: 0 <= k < i && channels[k].id == channels[i].id ==> !Belongs(channels[k], v, ids, RECENT)
  }

  ghost predicate Shown(channels: seq<Channel>, v: View, ids: seq<nat>, filter: nat, i: nat) {
    i < |channels| &&
    if filter == RECENT then FirstBelongs(channels, v, ids, i) else Belongs(channels[i], v, ids, filter)
  }

  /** The list of a filter holds exactly the channels that belong to it, the recent
      list the first of each id. */
  lemma ListShows(channels: seq<Channel>, v: View, ids: seq<nat>, filter: nat, i: nat)
    requires FlagsFollow(channels, ids)
    ensures i in VisibleList(channels, v, ids, filter) <==> Shown(channels, v, ids, filter, i)
  {
    forall k | 0 <= k < |channels| ensures Matches(channels[k], v, filter) <==> Belongs(channels[k], v, ids, filter) {
      MatchesBelongs(channels[k], v, ids, filter);
    }
    hide Matches, Belongs;
    if filter == RECENT {
      RecentRowsExactly(channels, v, RECENT, ids, i);
      if i < |channels| {
        FirstHitIsFirst(channels, v, RECENT, channels[i].id);
        BelongsInHistory(channels[i], v, ids);
      }
    } else {
      RowsExactly(channels, v, filter, i);
    }
  }

  lemma BelongsInHistory(c: Channel, v: View, ids: seq<nat>)
    ensures Belongs(c, v, ids, RECENT) ==> c.id in ids
  {}

  /** No list shows a channel twice, so its length is the number of those shown. */
  lemma ListCounts(channels: seq<Channel>, v: View, ids: seq<nat>, filter: nat)
    requires FlagsFollow(channels, ids) && Distinct(ids)
    ensures |VisibleList(channels, v, ids, filter)|
            == |set i: nat | i < |channels| && Shown(channels, v, ids, filter, i)|
  {
    var rows := VisibleList(channels, v, ids, filter);
    var shown := set i: nat | i < |channels| && Shown(channels, v, ids, filter, i);
    RecentRowsDistinct(channels, v, RECENT, ids);
    RowsExactly(channels, v, filter, 0);
    forall i: nat ensures i in rows <==> i in shown { ListShows(channels, v, ids, filter, i); }
    hide VisibleList, Shown;
    DistinctSize(rows, shown);
  }

  lemma {:induction false} DistinctSize(rows: seq<nat>, members: set<nat>)
    requires Distinct(rows) && forall i: nat :: i in rows <==> i in members
    ensures |rows| == |members|
  {
    if rows == [] {
      assert members == {};
    } else {
      var n := |rows| - 1;
      assert rows == rows[..n] + [rows[n]];
      DistinctSize(rows[..n], members - {rows[n]});
    }
  }

  // ------------------------------------------------------------------ the flags

  /** The recent flag is membership in the history. */
  predicate FlagsFollow(channels: seq<Channel>, ids: seq<nat>) {
    forall i :: 0 <= i < |channels| ==> (channels[i].recent <==> channels[i].id in ids)
  }

  /** Then it makes no difference for a recent id whether the flag is tested. */
  lemma {:induction false} FirstHitIgnoresFlag(channels: seq<Channel>, v: View, id: nat)
    requires forall i :: 0 <= i < |channels| && channels[i].id == id ==> channels[i].recent
    ensures FirstHit(channels, v, RECENT, id) == FirstHit(channels, v, ALL, id)
  {
    if channels != [] { FirstHitIgnoresFlag(channels[..|channels| - 1], v, id); }
  }

  lemma {:induction false} RecentRowsIgnoreFlag(channels: seq<Channel>, v: View, ids: seq<nat>, all: seq<nat>)
    requires FlagsFollow(channels, all) && forall id :: id in ids ==> id in all
    ensures RecentRows(channels, v, RECENT, ids) == RecentRows(channels, v, ALL, ids)
  {
    if ids != [] {
      var n := |ids| - 1;
      FirstHitIgnoresFlag(channels, v, ids[n]);
      RecentRowsIgnoreFlag(channels, v, ids[..n], all);
    }
  }
}
