/** The globals of source/iptv/iptv.c behind the channel screen. */
module IptvState {
  import opened IptvRows
  import opened IptvIndex

  class ChannelIndex {
    var channels: array<Channel>
    var groups: seq<string>
    var sources: seq<nat>
    var visible: array<nat>
    var visibleCount: nat
    var filterCounts: array<nat>
    const recentIds: array<nat>
    var recentCount: nat
    var filterIndex: nat
    var sourceFilter: nat
    var search: string
    var selectedIndex: nat

    function CurrentView(): View
      reads `groups, `sourceFilter, `search
    {
      View(groups, sourceFilter, search)
    }

    function History(): seq<nat>
      requires recentCount <= recentIds.Length
      reads `recentCount, recentIds
    {
      recentIds[..recentCount]
    }

    /** Lengths and separation of the arrays. */
    ghost predicate Shape()
      reads `channels, `groups, `visible, `filterCounts, `recentCount
    {
      && visible.Length == channels.Length && filterCounts.Length == |groups| + 3
      && recentIds.Length == MAX_RECENT && recentCount <= MAX_RECENT
      && visible != filterCounts && visible != recentIds && filterCounts != recentIds
    }

    /** What the lists are computed from: groups unique but for case, recent ids
        distinct, and both flags functions of the channel's id. */
    ghost predicate Base()
      reads `channels, `groups, `visible, `filterCounts, `recentCount, channels, recentIds
    {
      && Shape() && Unique(groups) && Distinct(History())
      && FlagsFollow(channels[..], History()) && SameIdSameFavorite(channels[..])
    }

    /** The list a filter would build from the present catalog and settings. */
    ghost function ListFor(filter: nat): seq<nat>
      requires Shape()
      reads `channels, `groups, `visible, `filterCounts, `recentCount, `sourceFilter, `search, channels, recentIds
    {
      VisibleList(channels[..], CurrentView(), History(), filter)
    }

    ghost predicate CountsAgree()
      requires Shape()
      reads `channels, `groups, `visible, `filterCounts, `recentCount, `sourceFilter, `search,
            channels, recentIds, filterCounts
    {
      forall f :: 0 <= f < |groups| + 3 ==> filterCounts[f] == |ListFor(f)|
    }

    ghost predicate ShowsFilter()
      requires Shape()
      reads this, channels, recentIds, visible
    {
      && filterIndex < |groups| + 3
      && visibleCount <= visible.Length && visible[..visibleCount] == ListFor(filterIndex)
      && (if visibleCount == 0 then selectedIndex == 0 else selectedIndex < visibleCount)
    }

    /** The counts summarise the lists, the visible index is the current
        filter's list, and the selection is on it. */
    ghost predicate Valid()
      reads this, channels, recentIds, visible, filterCounts
    {
      Base() && CountsAgree() && ShowsFilter()
    }

    constructor ()
      ensures Valid() && channels.Length == 0 && groups == [] && recentCount == 0
      ensures fresh(channels) && fresh(visible) && fresh(filterCounts) && fresh(recentIds)
    {
      channels := new Channel[0];
      visible := new nat[0];
      filterCounts := new nat[3](_ => 0);
      recentIds := new nat[MAX_RECENT];
      groups, sources, visibleCount, recentCount := [], [], 0, 0;
      filterIndex, sourceFilter, search, selectedIndex := 0, 0, "", 0;
    }

    // ----------------------------------------------------------------- rebuilding

    /** The inner loop over groups for one counted channel. */
    method CountGroup(group: string)
      requires filterCounts.Length == |groups| + 3 && Unique(groups)
      modifies filterCounts
      ensures forall f :: 0 <= f < FIRST_GROUP ==> filterCounts[f] == old(filterCounts[f])
      ensures forall j :: 0 <= j < |groups| ==>
        filterCounts[j + 3] == old(filterCounts[j + 3]) + if SameText(group, groups[j]) then 1 else 0
    {
      var j := 0;
      while j < |groups|
        invariant j <= |groups| && filterCounts[..] == old(filterCounts[..])
        invariant forall k :: 0 <= k < j ==> !SameText(group, groups[k])
      {
        if SameText(group, groups[j]) {
          filterCounts[j + 3] := filterCounts[j + 3] + 1;
          break;
        }
        j := j + 1;
      }
    }

    /** Counts of all filters but RECENT over the first n channels. */
    ghost predicate CountedTo(n: nat)
      requires Shape() && n <= channels.Length
      reads `channels, `groups, `visible, `filterCounts, `recentCount, `sourceFilter, `search, channels, filterCounts
    {
      forall f :: 0 <= f < |groups| + 3 ==>
        filterCounts[f] == if f == RECENT then 0 else |Rows(channels[..][..n], CurrentView(), f)|
    }

    method CountChannel(channel: Channel)
      requires Shape() && Unique(groups)
      modifies filterCounts
      ensures forall f :: 0 <= f < |groups| + 3 ==>
        filterCounts[f] == old(filterCounts[f]) + if f != RECENT && Matches(channel, CurrentView(), f) then 1 else 0
    {
      if Matches(channel, CurrentView(), ALL) {
        filterCounts[ALL] := filterCounts[ALL] + 1;
        filterCounts[FAVORITES] := filterCounts[FAVORITES] + if channel.favorite then 1 else 0;
        CountGroup(channel.group);
        assert forall f :: FIRST_GROUP <= f < |groups| + 3 ==>
          (Matches(channel, CurrentView(), f) <==> SameText(channel.group, groups[f - 3]))
          && filterCounts[f] == filterCounts[(f - 3) + 3];
      }
    }

    method CountFilters()
      requires Shape() && Unique(groups)
      modifies filterCounts
      ensures CountedTo(channels.Length)
    {
      forall f | 0 <= f < filterCounts.Length {
        filterCounts[f] := 0;
      }
      var i := 0;
      while i < channels.Length
        invariant i <= channels.Length && CountedTo(i)
      {
        ghost var before := filterCounts[..];
        CountChannel(channels[i]);
        forall f | 0 <= f < |groups| + 3 && f != RECENT
          ensures filterCounts[f] == |Rows(channels[..][..i + 1], CurrentView(), f)|
        {
          RowsStep(channels[..], CurrentView(), f, i);
          assert filterCounts[f] == before[f] + if Matches(channels[i], CurrentView(), f) then 1 else 0;
        }
        i := i + 1;
      }
    }

    method CountOne(filter: nat)
      requires filter < filterCounts.Length
      modifies filterCounts
      ensures filterCounts[..] == old(filterCounts[..])[filter := old(filterCounts[filter]) + 1]
    {
      filterCounts[filter] := filterCounts[filter] + 1;
    }

    method Show(row: nat)
      requires visibleCount < visible.Length
      modifies this`visibleCount, visible
      ensures visibleCount == old(visibleCount) + 1 && visible[..visibleCount] == old(visible[..visibleCount]) + [row]
    {
      visible[visibleCount] := row;
      visibleCount := visibleCount + 1;
    }

    /** The inner loop over channels for one recent id. */
    method FindHit(filter: nat, id: nat) returns (k: nat)
      ensures k == FirstHit(channels[..], CurrentView(), filter, id) <= channels.Length
    {
      FirstHitIsFirst(channels[..], CurrentView(), filter, id);
      k := 0;
      while k < channels.Length
        invariant k <= channels.Length
        invariant forall i :: 0 <= i < k ==> !Hits(channels[i], CurrentView(), filter, id)
      {
        if channels[k].id == id && Matches(channels[k], CurrentView(), filter) {
          return;
        }
        k := k + 1;
      }
    }

    method CountRecent()
      requires Base() && CountedTo(channels.Length)
      modifies filterCounts
      ensures CountsAgree()
    {
      ghost var chs, view, ids, counted := channels[..], CurrentView(), History(), filterCounts[..];
      CountRecentRows();
      RecentRowsIgnoreFlag(chs, view, ids, ids);
      assert chs[..|chs|] == chs;
      assert forall f :: 0 <= f < |groups| + 3 && f != RECENT ==> filterCounts[..][f] == counted[f];
    }

    method CountRecentRows()
      requires Shape() && Distinct(History()) && filterCounts[RECENT] == 0
      modifies filterCounts
      ensures filterCounts[RECENT] == |RecentRows(channels[..], CurrentView(), ALL, History())|
      ensures filterCounts[..] == old(filterCounts[..])[RECENT := filterCounts[RECENT]]
    {
      ghost var chs, view, ids, counts := channels[..], CurrentView(), History(), filterCounts[..];
      var r := 0;
      assert RecentRows(chs, view, ALL, ids[..0]) == [] && ids[..|ids|] == ids && |ids| == recentCount;
      hide *;
      while r < recentCount
        invariant r <= recentCount && chs == channels[..] && view == CurrentView() && ids == History()
        invariant filterCounts[RECENT] == |RecentRows(chs, view, ALL, ids[..r])|
        invariant filterCounts[..] == counts[RECENT := filterCounts[RECENT]]
      {
        RecentRowsStep(chs, view, ALL, ids, r);
        var k := FindHit(ALL, recentIds[r]);
        if k < channels.Length {
          CountOne(RECENT);
        }
        r := r + 1;
      }
    }

    method FillVisible()
      requires Base() && filterIndex < |groups| + 3
      modifies this`visibleCount, visible
      ensures visibleCount <= visible.Length && visible[..visibleCount] == ListFor(filterIndex)
    {
      if filterIndex == RECENT {
        FillRecent();
      } else {
        visibleCount := 0;
        var i := 0;
        while i < channels.Length
          invariant i <= channels.Length && visibleCount <= i
          invariant visible[..visibleCount] == Rows(channels[..][..i], CurrentView(), filterIndex)
        {
          RowsStep(channels[..], CurrentView(), filterIndex, i);
          if Matches(channels[i], CurrentView(), filterIndex) {
            Show(i);
          }
          i := i + 1;
        }
        assert channels[..][..channels.Length] == channels[..];
      }
    }

    method FillRecent()
      requires Shape() && Distinct(History())
      modifies this`visibleCount, visible
      ensures visibleCount <= visible.Length
      ensures visible[..visibleCount] == RecentRows(channels[..], CurrentView(), RECENT, History())
    {
      ghost var chs, view, ids := channels[..], CurrentView(), History();
      visibleCount := 0;
      var r := 0;
      assert RecentRows(chs, view, RECENT, ids[..0]) == [] && ids[..|ids|] == ids && |ids| == recentCount;
      hide *;
      while r < recentCount
        invariant r <= recentCount && visibleCount <= visible.Length
        invariant chs == channels[..] && view == CurrentView() && ids == History()
        invariant visible[..visibleCount] == RecentRows(chs, view, RECENT, ids[..r])
      {
        RecentRowsStep(chs, view, RECENT, ids, r);
        var k := FindHit(RECENT, recentIds[r]);
        if k < channels.Length {
          Show(k);
        }
        r := r + 1;
      }
    }

    ghost predicate SelectionFrom(before: nat, preferredId: nat)
      reads this, channels, visible
    {
      if preferredId != 0 && ShownTo(visibleCount, preferredId)
      then IsRow(selectedIndex, preferredId) && !ShownTo(selectedIndex, preferredId)
      else selectedIndex == if visibleCount == 0 then 0 else if before >= visibleCount then visibleCount - 1 else before
    }

    ghost predicate ShownTo(n: nat, id: nat)
      reads `channels, `visible, channels, visible
    {
      exists k: nat :: k < n && IsRow(k, id)
    }

    /** The end of iptv_rebuild_visible_locked. */
    method Select(preferredId: nat)
      requires visibleCount <= visible.Length && forall k :: 0 <= k < visibleCount ==> visible[k] < channels.Length
      modifies this`selectedIndex
      ensures SelectionFrom(old(selectedIndex), preferredId)
      ensures if visibleCount == 0 then selectedIndex == 0 else selectedIndex < visibleCount
    {
      if preferredId != 0 {
        var i := 0;
        while i < visibleCount
          invariant i <= visibleCount && !ShownTo(i, preferredId)
        {
          if channels[visible[i]].id == preferredId {
            assert IsRow(i, preferredId);
            selectedIndex := i;
            return;
          }
          i := i + 1;
        }
      }
      if visibleCount == 0 {
        selectedIndex := 0;
      } else if selectedIndex >= visibleCount {
        selectedIndex := visibleCount - 1;
      }
    }

    method Recount()
      requires Base()
      modifies filterCounts
      ensures CountsAgree()
    {
      CountFilters();
      CountRecent();
    }

    method Refill(preferredId: nat)
      requires Base()
      modifies this`visibleCount, this`filterIndex, this`selectedIndex, visible
      ensures ShowsFilter() && SelectionFrom(old(selectedIndex), preferredId)
      ensures filterIndex == if old(filterIndex) < |groups| + 3 then old(filterIndex) else 0
    {
      if filterIndex > |groups| + 2 {
        filterIndex := 0;
      }
      FillVisible();
      ListInRange(filterIndex);
      hide SelectionFrom, ListFor, Unique, Distinct, FlagsFollow;
      Select(preferredId);
    }

    /** iptv_rebuild_visible_locked; `preferredId` 0 prefers nothing. */
    method Rebuild(preferredId: nat)
      requires Base()
      modifies this`visibleCount, this`filterIndex, this`selectedIndex, visible, filterCounts
      ensures Valid() && ShowsChannels() && SelectionFrom(old(selectedIndex), preferredId)
      ensures filterIndex == if old(filterIndex) < |groups| + 3 then old(filterIndex) else 0
    {
      assert Shape() && visible != filterCounts && visible != recentIds && filterCounts != recentIds;
      hide Base, Shape, CountsAgree, ShowsFilter, SelectionFrom, ShowsChannels;
      Recount();
      Refill(preferredId);
      ValidShows();
    }

    /** The visible index holds the channels that the filter shows, and each count
        is the number of channels that its filter shows. */
    ghost predicate ShowsChannels()
      requires Shape()
      reads this, channels, recentIds, visible, filterCounts
    {
      && visibleCount <= visible.Length
      && (forall i: nat ::
            i in visible[..visibleCount] <==> Shown(channels[..], CurrentView(), History(), filterIndex, i))
      && (forall f :: 0 <= f < |groups| + 3 ==> filterCounts[f] == NumberShown(f))
    }

    ghost function NumberShown(filter: nat): nat
      requires Shape()
      reads `channels, `groups, `visible, `filterCounts, `recentCount, `sourceFilter, `search, channels, recentIds
    {
      |set i: nat | i < channels.Length && Shown(channels[..], CurrentView(), History(), filter, i)|
    }

    lemma ValidShows()
      requires Valid()
      ensures ShowsChannels()
    {
      var chs, v, ids := channels[..], CurrentView(), History();
      forall i: nat ensures i in visible[..visibleCount] <==> Shown(chs, v, ids, filterIndex, i) {
        ListShows(chs, v, ids, filterIndex, i);
      }
      forall f | 0 <= f < |groups| + 3 ensures filterCounts[f] == NumberShown(f) {
        ListCounts(chs, v, ids, f);
        assert filterCounts[f] == |ListFor(f)|;
      }
    }

    lemma ListInRange(filter: nat)
      requires Shape()
      ensures forall k :: 0 <= k < |ListFor(filter)| ==> ListFor(filter)[k] < channels.Length
    {
      RowsExactly(channels[..], CurrentView(), filter, 0);
      RecentRowsInHistory(channels[..], CurrentView(), RECENT, History());
    }

    /** Row k of the visible index shows this channel. */
    ghost predicate IsRow(k: nat, id: nat)
      reads `channels, `visible, channels, visible
    {
      k < visible.Length && visible[k] < channels.Length && channels[visible[k]].id == id
    }

    // ----------------------------------------------------------------- operations

    ghost function Selected(): Channel
      requires Valid() && visibleCount > 0
      reads this, channels, recentIds, visible, filterCounts
    {
      ListInRange(filterIndex);
      assert visible[..visibleCount][selectedIndex] < channels.Length;
      channels[visible[selectedIndex]]
    }

    /** The id of the selected row, 0 without one. */
    ghost function IdSelected(): nat
      requires Valid()
      reads this, channels, recentIds, visible, filterCounts
    {
      if visibleCount > 0 then Selected().id else 0
    }

    method SelectedId() returns (id: nat)
      requires Valid()
      ensures id == IdSelected()
    {
      id := 0;
      if visibleCount > 0 && selectedIndex < visibleCount {
        ListInRange(filterIndex);
        assert visible[..visibleCount][selectedIndex] < channels.Length;
        id := channels[visible[selectedIndex]].id;
      }
    }

    method SetFilter(index: int)
      requires Valid()
      modifies this`visibleCount, this`filterIndex, this`selectedIndex, visible, filterCounts
      ensures Valid()
      ensures filterIndex == if 0 <= index < |groups| + 3 then index else 0
      ensures filterIndex != old(filterIndex) ==> selectedIndex == 0
    {
      var next := if 0 <= index < |groups| + 3 then index else 0;
      if next != filterIndex {
        filterIndex := next;
        selectedIndex := 0;
        Rebuild(0);
      }
    }

    /** Steps through the filters in a circle, keeping the channel selected
        if the new filter shows it. */
    method CycleFilter(delta: int)
      requires Valid()
      modifies this`visibleCount, this`filterIndex, this`selectedIndex, visible, filterCounts
      ensures Valid() && filterIndex == (old(filterIndex) + delta) % (|groups| + 3)
      ensures SelectionFrom(old(selectedIndex), old(IdSelected()))
    {
      var selectedId := SelectedId();
      hide SelectionFrom, CountsAgree, ShowsFilter, ShowsChannels, Base;
      filterIndex := Stepped(filterIndex, delta, |groups| + 3);
      Rebuild(selectedId);
    }

    /** The remainder of C, made an index again. */
    static method Stepped(index: nat, delta: int, count: nat) returns (next: nat)
      requires index < count
      ensures next == (index + delta) % count
    {
      RemainderToResidue(index + delta, count);
      var r := Remainder(index + delta, count);
      next := if r < 0 then r + count else r;
    }

    method SetSourceFilter(sourceId: nat)
      requires Valid()
      modifies this`sourceFilter, this`visibleCount, this`filterIndex, this`selectedIndex, visible, filterCounts
      ensures Valid() && sourceFilter == (if sourceId in sources then sourceId else 0)
      ensures filterIndex == old(filterIndex)
      ensures sourceFilter != old(sourceFilter) ==> selectedIndex == 0
    {
      var next := 0;
      var i := 0;
      while sourceId != 0 && i < |sources|
        invariant i <= |sources| && sourceId !in sources[..i] && next == 0
      {
        if sources[i] == sourceId {
          next := sourceId;
          break;
        }
        i := i + 1;
      }
      if next != sourceFilter {
        sourceFilter := next;
        selectedIndex := 0;
        Rebuild(0);
      }
    }

    /** The end of iptv_prompt_search, and iptv_clear_search with "". */
    method SetSearch(text: string)
      requires Valid()
      modifies this`search, this`visibleCount, this`filterIndex, this`selectedIndex, visible, filterCounts
      ensures Valid() && search == text && filterIndex == old(filterIndex)
      ensures SelectionFrom(old(selectedIndex), 0)
    {
      search := text;
      Rebuild(0);
    }

    method SetSelectedIndex(index: int)
      requires Valid()
      modifies this`selectedIndex
      ensures Valid()
      ensures visibleCount > 0 ==>
        selectedIndex == if index < 0 then 0 else if index >= visibleCount then visibleCount - 1 else index
    {
      if visibleCount == 0 {
        selectedIndex := 0;
      } else {
        var next := if index < 0 then 0 else index;
        selectedIndex := if next >= visibleCount then visibleCount - 1 else next;
      }
    }

    /** Sets the flag of every channel with this id; the ids then flagged. */
    method FlagFavorite(id: nat, flag: bool) returns (favorites: seq<nat>)
      modifies channels
      ensures channels[..] == WithFavorite(old(channels[..]), id, flag)
      ensures favorites == FavoriteIds(channels[..])
    {
      favorites := [];
      ghost var before := channels[..];
      var i := 0;
      while i < channels.Length
        invariant i <= channels.Length && |before| == channels.Length
        invariant forall k :: 0 <= k < i ==> channels[k] == Flagged(before[k], id, flag)
        invariant forall k :: i <= k < channels.Length ==> channels[k] == before[k]
        invariant favorites == FavoriteIds(channels[..][..i])
      {
        ghost var done := channels[..][..i];
        hide WithFavorite;
        if channels[i].id == id {
          channels[i] := channels[i].(favorite := flag);
        }
        assert channels[..][..i] == done && channels[..][..i + 1] == done + [channels[i]];
        if channels[i].favorite {
          favorites := favorites + [channels[i].id];
        }
        i := i + 1;
      }
      assert channels[..][..i] == channels[..];
    }

    /** iptv_toggle_selected_favorite; `saveOk` is what writing the favorites
        answers. A failed save leaves every flag as it was. */
    method ToggleSelectedFavorite(memoryOk: bool, saveOk: bool) returns (saved: bool, favorites: seq<nat>)
      requires Valid()
      modifies this`visibleCount, this`filterIndex, this`selectedIndex, channels, visible, filterCounts
      ensures Valid() && filterIndex == old(filterIndex)
      ensures saved <==> memoryOk && saveOk && old(visibleCount) > 0
      ensures !saved ==> channels[..] == old(channels[..])
      ensures memoryOk && old(visibleCount) > 0 ==> SelectionFrom(old(selectedIndex), old(IdSelected()))
      ensures saved ==>
        var selected := old(Selected());
        && channels[..] == WithFavorite(old(channels[..]), selected.id, !selected.favorite)
        && favorites == FavoriteIds(channels[..])
        && forall i :: 0 <= i < channels.Length && channels[i].id == selected.id ==>
             (Shown(channels[..], CurrentView(), History(), FAVORITES, i) <==>
              !selected.favorite && Chosen(channels[i], CurrentView()))
    {
      favorites := [];
      if visibleCount == 0 || !memoryOk {
        return false, favorites;
      }
      ListInRange(filterIndex);
      assert visible[..visibleCount][selectedIndex] < channels.Length;
      ghost var before := channels[..];
      var selected := channels[visible[selectedIndex]];
      hide SelectionFrom, CountsAgree, ShowsFilter, ShowsChannels;
      var makeFavorite := !selected.favorite;
      favorites := FlagFavorite(selected.id, makeFavorite);
      FavoriteKeepsFlags(before, selected.id, makeFavorite, History());
      saved := saveOk;
      if !saved {
        FavoriteBack(before, visible[selectedIndex]);
        var _ := FlagFavorite(selected.id, !makeFavorite);
      }
      forall i | 0 <= i < |before| && before[i].id == selected.id {
        ToggledShows(before, CurrentView(), History(), selected.id, makeFavorite, i);
      }
      hide Shown, Chosen;
      Rebuild(selected.id);
    }

    /** The history part of iptv_play_url_named. */
    method RecordRecent(channelId: nat)
      requires Valid() && channelId != 0
      modifies this`recentCount, this`visibleCount, this`filterIndex, this`selectedIndex,
               recentIds, channels, visible, filterCounts
      ensures Valid() && filterIndex == old(filterIndex)
      ensures History() == MovedToFront(old(History()), channelId)
      ensures forall k :: 0 <= k < channels.Length ==>
        channels[k] == old(channels[k]).(recent := channels[k].id in History())
      ensures SelectionFrom(old(selectedIndex), channelId)
    {
      MovedToFrontKeeps(History(), channelId);
      MoveToFront(channelId);
      ghost var before := channels[..];
      FlagRecent();
      hide SelectionFrom, CountsAgree, ShowsFilter, ShowsChannels;
      Rebuild(channelId);
    }

    method FindExisting(channelId: nat) returns (existing: nat)
      requires recentCount <= recentIds.Length
      ensures existing == IndexOf(History(), channelId)
    {
      existing := 0;
      while existing < recentCount && recentIds[existing] != channelId
        invariant existing <= recentCount && channelId !in History()[..existing]
      {
        existing := existing + 1;
      }
      IndexIs(History(), channelId, existing);
    }

    /** memmove by one place. */
    method ShiftRecent(count: nat)
      requires count < recentIds.Length
      modifies recentIds
      ensures recentIds[..] == old(recentIds[..1] + recentIds[..count] + recentIds[count + 1..])
    {
      forall i | 0 <= i < count {
        recentIds[i + 1] := recentIds[i];
      }
    }

    method MoveToFront(channelId: nat)
      requires recentIds.Length == MAX_RECENT && recentCount <= MAX_RECENT
      modifies this`recentCount, recentIds
      ensures recentCount <= MAX_RECENT && History() == MovedToFront(old(History()), channelId)
    {
      ghost var all, ids := recentIds[..], History();
      var existing := FindExisting(channelId);
      var move := if existing < recentCount then existing
                  else if recentCount < MAX_RECENT then recentCount else MAX_RECENT - 1;
      ShiftRecent(move);
      if existing == recentCount && recentCount < MAX_RECENT {
        recentCount := recentCount + 1;
      }
      recentIds[0] := channelId;
      assert recentIds[..] == [channelId] + all[..move] + all[move + 1..];
      ShiftedIsMoved(all, |ids|, channelId);
      hide *;
    }

    method FlagRecent()
      requires recentIds.Length == MAX_RECENT && recentCount <= MAX_RECENT
      modifies channels
      ensures |channels[..]| == |old(channels[..])| && FlagsFollow(channels[..], History())
      ensures forall k :: 0 <= k < channels.Length ==>
        channels[k] == old(channels[k]).(recent := channels[k].id in History())
    {
      var i := 0;
      while i < channels.Length
        invariant i <= channels.Length
        invariant forall k :: 0 <= k < i ==> channels[k] == old(channels[k]).(recent := channels[k].id in History())
        invariant forall k :: i <= k < channels.Length ==> channels[k] == old(channels[k])
      {
        channels[i] := channels[i].(recent := channels[i].id in History());
        i := i + 1;
      }
    }

    // ------------------------------------------------------------- a new catalog

    /** Where the filter of the old catalog's group is among the new groups. */
    method CarryFilter(preferredGroup: string)
      requires Unique(groups)
      modifies this`filterIndex
      ensures if filterIndex == 0 then !InGroups(preferredGroup, groups)
              else 3 <= filterIndex < |groups| + 3 && SameText(preferredGroup, groups[filterIndex - 3])
    {
      filterIndex := 0;
      var i := 0;
      while i < |groups|
        invariant i <= |groups|
        invariant if filterIndex == 0 then forall k :: 0 <= k < i ==> !SameText(preferredGroup, groups[k])
                  else 3 <= filterIndex < i + 3 && SameText(preferredGroup, groups[filterIndex - 3])
      {
        if SameText(preferredGroup, groups[i]) {
          filterIndex := i + 3;
        }
        i := i + 1;
      }
    }

    method LoadRecent(values: seq<nat>)
      requires recentIds.Length == MAX_RECENT
      modifies this`recentCount, recentIds
      ensures recentCount <= MAX_RECENT && Distinct(History())
      ensures History() == Capped(FirstDistinct(values), MAX_RECENT)
    {
      var ids := LoadIds(values, MAX_RECENT);
      recentCount := |ids|;
      forall i | 0 <= i < |ids| {
        recentIds[i] := ids[i];
      }
      assert History() == ids;
    }

    /** iptv_commit_catalog with the favorites and recent ids it loads. A group
        filter follows its group by name, a source filter its source. */
    method Commit(catalog: Catalog, newSources: seq<nat>, favorites: seq<nat>, recent: seq<nat>, loaded: bool)
      returns (ok: bool)
      requires Valid() && catalog.Valid() && !catalog.failed
      modifies this, recentIds
      ensures Valid() && ok == loaded
      ensures !ok ==> unchanged(this) && unchanged(recentIds)
      ensures ok ==>
        && fresh(channels) && fresh(visible) && fresh(filterCounts)
        && groups == catalog.groups && sources == newSources && FlagsKept(catalog.channels, favorites)
      ensures ok ==> sourceFilter == if old(sourceFilter) in newSources then old(sourceFilter) else 0
      ensures ok ==> FilterFollows(old(groups), old(filterIndex))
      ensures ok ==> History() == Capped(FirstDistinct(recent), MAX_RECENT) && search == old(search)
      ensures ok ==> SelectionFrom(old(selectedIndex), old(IdSelected()))
    {
      if !loaded {
        return false;
      }
      var preferredChannel := SelectedId();
      hide Base, CountsAgree, ShowsFilter, ShowsChannels, SelectionFrom, FilterFollows, FlagsKept;
      TakeCatalog(catalog, newSources, favorites, recent);
      Rebuild(preferredChannel);
      return true;
    }

    /** The channels are those of the catalog, with their flags from the files. */
    ghost predicate FlagsKept(newChannels: seq<Channel>, favorites: seq<nat>)
      requires recentCount <= recentIds.Length
      reads `channels, `recentCount, channels, recentIds
    {
      && channels.Length == |newChannels|
      && forall i :: 0 <= i < |newChannels| ==>
           channels[i] == newChannels[i].(favorite := newChannels[i].id in favorites,
                                          recent := newChannels[i].id in History())
    }

    method TakeCatalog(catalog: Catalog, newSources: seq<nat>, favorites: seq<nat>, recent: seq<nat>)
      requires Shape() && filterIndex < |groups| + 3 && Unique(catalog.groups)
      modifies this, recentIds
      ensures Base() && fresh(channels) && fresh(visible) && fresh(filterCounts)
      ensures groups == catalog.groups && sources == newSources && FlagsKept(catalog.channels, favorites)
      ensures sourceFilter == if old(sourceFilter) in newSources then old(sourceFilter) else 0
      ensures FilterFollows(old(groups), old(filterIndex)) && filterIndex < |groups| + 3
      ensures History() == Capped(FirstDistinct(recent), MAX_RECENT)
      ensures selectedIndex == old(selectedIndex) && search == old(search)
    {
      hide Unique, Distinct, SameIdSameFavorite, FlagsFollow, FilterFollows;
      TakeSettings(catalog.groups, newSources);
      LoadRecent(recent);
      Restore(catalog.channels, favorites);
      visible := new nat[channels.Length];
      filterCounts := new nat[|groups| + 3];
    }

    ghost predicate FilterFollows(oldGroups: seq<string>, oldFilter: nat)
      requires oldFilter < |oldGroups| + 3
      reads `groups, `filterIndex
    {
      if oldFilter < 3 then filterIndex == oldFilter
      else if InGroups(oldGroups[oldFilter - 3], groups)
      then 3 <= filterIndex < |groups| + 3 && SameText(oldGroups[oldFilter - 3], groups[filterIndex - 3])
      else filterIndex == 0
    }

    method TakeSettings(newGroups: seq<string>, newSources: seq<nat>)
      requires filterIndex < |groups| + 3 && Unique(newGroups)
      modifies this`groups, this`sources, this`filterIndex, this`sourceFilter
      ensures groups == newGroups && sources == newSources && filterIndex < |groups| + 3
      ensures sourceFilter == if old(sourceFilter) in newSources then old(sourceFilter) else 0
      ensures FilterFollows(old(groups), old(filterIndex))
    {
      var carries := filterIndex >= 3;
      var preferredGroup := if carries then groups[filterIndex - 3] else "";
      groups, sources := newGroups, newSources;
      if carries {
        CarryFilter(preferredGroup);
      }
      if sourceFilter !in newSources {
        sourceFilter := 0;
      }
    }

    method Restore(newChannels: seq<Channel>, favorites: seq<nat>)
      requires recentIds.Length == MAX_RECENT && recentCount <= MAX_RECENT
      modifies this`channels
      ensures fresh(channels) && |channels[..]| == |newChannels|
      ensures forall i :: 0 <= i < |newChannels| ==> channels[i] == Restored(newChannels[i], favorites, History())
      ensures FlagsFollow(channels[..], History()) && SameIdSameFavorite(channels[..])
    {
      var stored := new Channel[|newChannels|](i requires 0 <= i < |newChannels| => newChannels[i]);
      var i := 0;
      while i < stored.Length
        invariant i <= stored.Length
        invariant forall k :: 0 <= k < i ==> stored[k] == Restored(newChannels[k], favorites, History())
        invariant forall k :: i <= k < stored.Length ==> stored[k] == newChannels[k]
      {
        stored[i] := stored[i].(favorite := stored[i].id in favorites, recent := stored[i].id in History());
        i := i + 1;
      }
      channels := stored;
    }
  }

  /** A channel of a new catalog, with its flags from the saved files. */
  function Restored(c: Channel, favorites: seq<nat>, recent: seq<nat>): Channel {
    c.(favorite := c.id in favorites, recent := c.id in recent)
  }

  /** The remainder of C, which has the sign of the dividend. */
  function Remainder(a: int, b: int): int
    requires b > 0
  {
    if a >= 0 then a % b else -((-a) % b)
  }

  lemma ModuloIs(x: int, b: int, q: int, r: int)
    requires 0 <= r < b && x == q * b + r
    ensures x % b == r
  {
    var d := x / b - q;
    assert x == (x / b) * b + x % b;
    assert d * b == (x / b) * b - q * b;
    assert d >= 1 ==> d * b >= b;
    assert d <= -1 ==> d * b <= -b;
  }

  /** Adding the divisor to a negative remainder gives the residue. */
  lemma RemainderToResidue(a: int, b: int)
    requires b > 0
    ensures var r := Remainder(a, b); (if r < 0 then r + b else r) == a % b
  {
    if a < 0 {
      var q, m := (-a) / b, (-a) % b;
      assert -a == q * b + m;
      if m == 0 {
        assert a == (-q) * b + 0;
        ModuloIs(a, b, -q, 0);
      } else {
        assert a == (-q - 1) * b + (b - m) by {
          assert (-q - 1) * b == -(q * b) - b;
        }
        ModuloIs(a, b, -q - 1, b - m);
      }
    }
  }

  function Flagged(c: Channel, id: nat, flag: bool): Channel {
    if c.id == id then c.(favorite := flag) else c
  }

  function WithFavorite(channels: seq<Channel>, id: nat, flag: bool): (flagged: seq<Channel>)
    ensures |flagged| == |channels|
    ensures forall i :: 0 <= i < |channels| ==> flagged[i] == Flagged(channels[i], id, flag)
  {
    seq(|channels|, i requires 0 <= i < |channels| => Flagged(channels[i], id, flag))
  }

  function FavoriteIds(channels: seq<Channel>): seq<nat> {
    if channels == [] then []
    else
      var n := |channels| - 1;
      FavoriteIds(channels[..n]) + (if channels[n].favorite then [channels[n].id] else [])
  }

  ghost predicate SameIdSameFavorite(channels: seq<Channel>) {
    forall i, j :: 0 <= i < j < |channels| && channels[i].id == channels[j].id ==>
      channels[i].favorite == channels[j].favorite
  }

  lemma FavoriteKeepsFlags(channels: seq<Channel>, id: nat, flag: bool, ids: seq<nat>)
    requires SameIdSameFavorite(channels) && FlagsFollow(channels, ids)
    ensures SameIdSameFavorite(WithFavorite(channels, id, flag))
    ensures FlagsFollow(WithFavorite(channels, id, flag), ids)
  {}

  lemma ToggledShows(channels: seq<Channel>, v: View, ids: seq<nat>, id: nat, flag: bool, i: nat)
    requires i < |channels| && channels[i].id == id
    ensures Shown(WithFavorite(channels, id, flag), v, ids, FAVORITES, i) <==>
      flag && Chosen(WithFavorite(channels, id, flag)[i], v)
  {
    hide Chosen;
  }

  lemma {:induction false} FavoriteIdsExactly(channels: seq<Channel>, id: nat)
    ensures id in FavoriteIds(channels) <==>
      exists i :: 0 <= i < |channels| && channels[i].favorite && channels[i].id == id
  {
    if channels != [] {
      var n := |channels| - 1;
      FavoriteIdsExactly(channels[..n], id);
      assert forall i :: 0 <= i < n ==> channels[..n][i] == channels[i];
    }
  }

  /** The ids that are saved restore every flag when the same channels are loaded
      again. */
  lemma SavedFavoritesRestore(channels: seq<Channel>, recent: seq<nat>)
    requires SameIdSameFavorite(channels) && FlagsFollow(channels, recent)
    ensures forall i :: 0 <= i < |channels| ==> Restored(channels[i], FavoriteIds(channels), recent) == channels[i]
  {
    forall i | 0 <= i < |channels| ensures Restored(channels[i], FavoriteIds(channels), recent) == channels[i] {
      FavoriteIdsExactly(channels, channels[i].id);
      if k :| 0 <= k < |channels| && channels[k].favorite && channels[k].id == channels[i].id {
        assert k < i || i < k || k == i;
      }
    }
  }

  /** Flags are functions of the id, so setting them back restores all. */
  lemma FavoriteBack(channels: seq<Channel>, k: nat)
    requires SameIdSameFavorite(channels) && k < |channels|
    ensures var c := channels[k];
      WithFavorite(WithFavorite(channels, c.id, !c.favorite), c.id, c.favorite) == channels
  {
    var c := channels[k];
    var back := WithFavorite(WithFavorite(channels, c.id, !c.favorite), c.id, c.favorite);
    forall i | 0 <= i < |channels| ensures back[i] == channels[i] {
      assert channels[i].id == c.id ==> channels[i].favorite == c.favorite;
    }
  }

  lemma ShiftedIsMoved(all: seq<nat>, n: nat, id: nat)
    requires |all| == MAX_RECENT && n <= MAX_RECENT
    ensures var k := IndexOf(all[..n], id);
      var move := if k < n then k else if n < MAX_RECENT then n else MAX_RECENT - 1;
      var count := if k == n && n < MAX_RECENT then n + 1 else n;
      ([id] + all[..move] + all[move + 1..])[..count] == MovedToFront(all[..n], id)
  {
    var ids, k := all[..n], IndexOf(all[..n], id);
    hide IndexOf;
    if k < n {
      assert ([id] + all[..k] + all[k + 1..])[..n] == [id] + ids[..k] + ids[k + 1..];
    } else if n < MAX_RECENT {
      assert ([id] + all[..n] + all[n + 1..])[..n + 1] == [id] + ids;
    } else {
      assert ([id] + all[..n - 1] + all[n..])[..n] == [id] + ids[..n - 1];
    }
  }

  lemma {:induction false} IndexIs(ids: seq<nat>, id: nat, k: nat)
    requires k <= |ids| && id !in ids[..k] && (k < |ids| ==> ids[k] == id)
    ensures IndexOf(ids, id) == k
  {
    if k > 0 {
      assert ids[0] == ids[..k][0] && ids[1..][..k - 1] == ids[..k][1..];
      IndexIs(ids[1..], id, k - 1);
    }
  }

  /** One more channel adds itself to the rows of the filters it matches. */
  lemma RowsStep(channels: seq<Channel>, v: View, filter: nat, i: nat)
    requires i < |channels|
    ensures Rows(channels[..i + 1], v, filter)
            == Rows(channels[..i], v, filter) + (if Matches(channels[i], v, filter) then [i] else [])
  {
    assert channels[..i + 1][..i] == channels[..i];
  }

  lemma RecentRowsStep(channels: seq<Channel>, v: View, filter: nat, ids: seq<nat>, r: nat)
    requires Distinct(ids) && r < |ids|
    ensures var k := FirstHit(channels, v, filter, ids[r]);
      RecentRows(channels, v, filter, ids[..r + 1])
      == RecentRows(channels, v, filter, ids[..r]) + (if k < |channels| then [k] else [])
    ensures |RecentRows(channels, v, filter, ids[..r + 1])| <= |channels|
  {
    assert ids[..r + 1][..r] == ids[..r];
    RecentRowsFit(channels, v, filter, ids[..r + 1]);
  }
}
