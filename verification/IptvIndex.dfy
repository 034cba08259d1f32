/** The channel lists kept in memory (source/iptv/iptv.c): channels, the visible
    index, the cached filter counts and the history of recent channels. */
module IptvIndex {
  import opened IptvRows

  const MAX_RECENT: nat := 32
  const NAME_MAX: nat := 128
  const GROUP_MAX: nat := 96
  const TVG_ID_MAX: nat := 128

  /** No two group names are equal but for case. */
  ghost predicate Unique(groups: seq<string>) {
    forall i, j :: 0 <= i < j < |groups| ==> !SameText(groups[i], groups[j])
  }

  /** Every named group of a channel has its filter. */
  ghost predicate Listed(channels: seq<Channel>, groups: seq<string>) {
    forall i :: 0 <= i < |channels| && channels[i].group != "" ==> InGroups(channels[i].group, groups)
  }

  ghost predicate InGroups(group: string, groups: seq<string>) {
    exists j :: 0 <= j < |groups| && SameText(groups[j], group)
  }

  /** iptv_copy into a field of `size` bytes: as much of the text as fits. */
  function Truncated(s: string, size: nat): (t: string)
    requires size > 0
    ensures |t| < size && t <= s
    ensures t == s || |t| == size - 1
  {
    if |s| < size then s else s[..size - 1]
  }

  /** A channel as its fields hold it; `fallback` names one without a name. */
  function Stored(c: Channel, fallback: string): Channel {
    c.(name := Truncated(if c.name == "" then fallback else c.name, NAME_MAX),
       group := Truncated(c.group, GROUP_MAX),
       tvgId := Truncated(c.tvgId, TVG_ID_MAX))
  }

  /** As much of a text as leaves room for the zero byte. */
  ghost predicate Cut(field: string, text: string, size: nat) {
    field <= text && |field| < size && (|text| < size ==> field == text) && (|text| >= size ==> |field| == size - 1)
  }

  /** The fields have 128, 96 and 128 bytes; nothing else of a channel changes, and
      only a channel without a name gets another one. */
  lemma StoredFits(c: Channel, fallback: string)
    ensures var stored := Stored(c, fallback);
      && Cut(stored.group, c.group, 96) && Cut(stored.tvgId, c.tvgId, 128)
      && (c.name != "" ==> Cut(stored.name, c.name, 128)) && (c.name == "" ==> Cut(stored.name, fallback, 128))
      && stored == c.(name := stored.name, group := stored.group, tvgId := stored.tvgId)
  {}

  /** A catalog being built. `memoryOk` says whether an allocation succeeds. */
  class Catalog {
    var channels: seq<Channel>
    var groups: seq<string>
    var failed: bool

    ghost predicate Valid()
      reads this
    {
      Unique(groups) && (!failed ==> Listed(channels, groups))
    }

    constructor ()
      ensures Valid() && channels == [] && groups == [] && !failed
    {
      channels, groups, failed := [], [], false;
    }

    /** iptv_catalog_add_group; the group was cut to its field's size before. */
    method AddGroup(group: string, memoryOk: bool)
      requires Unique(groups) && !failed && |group| < GROUP_MAX
      modifies this`groups, this`failed
      ensures Unique(groups) && old(groups) <= groups
      ensures group == "" || InGroups(group, old(groups)) ==> groups == old(groups) && !failed
      ensures group != "" && !InGroups(group, old(groups)) ==>
        failed == !memoryOk && groups == if memoryOk then old(groups) + [group] else old(groups)
    {
      if group == "" {
        return;
      }
      var i := 0;
      while i < |groups|
        invariant i <= |groups| && forall k :: 0 <= k < i ==> !SameText(groups[k], group)
      {
        if SameText(groups[i], group) {
          return;
        }
        i := i + 1;
      }
      if memoryOk {
        groups := groups + [Truncated(group, GROUP_MAX)];
      } else {
        failed := true;
      }
    }

    /** iptv_catalog_add_channel. */
    method AddChannel(
        channel: Channel, fallback: string, playable: bool, roomForChannel: bool, roomForGroup: bool)
      returns (added: bool)
      requires Valid() && !failed
      modifies this
      ensures Valid() && (added ==> channels == old(channels) + [Stored(channel, fallback)])
      ensures !added <==> !playable || failed
      ensures !playable ==> channels == old(channels) && groups == old(groups) && !failed
    {
      if !playable {
        return false;
      }
      if !roomForChannel {
        failed := true;
        return false;
      }
      var stored := Stored(channel, fallback);
      channels := channels + [stored];
      AddGroup(stored.group, roomForGroup);
      if failed {
        return false;
      }
      assert forall i :: 0 <= i < |old(channels)| ==> channels[i] == old(channels)[i];
      assert stored.group != "" ==> InGroups(stored.group, groups) by {
        if stored.group != "" && groups != old(groups) { assert SameText(groups[|old(groups)|], stored.group); }
      }
      assert Listed(channels, groups) by {
        forall i | 0 <= i < |channels| && channels[i].group != "" ensures InGroups(channels[i].group, groups) {
          if i < |old(channels)| {
            assert InGroups(old(channels)[i].group, old(groups));
            var j :| 0 <= j < |old(groups)| && SameText(old(groups)[j], channels[i].group);
            assert groups[j] == old(groups)[j];
          }
        }
      }
      return true;
    }
  }

  // ----------------------------------------------------------------- the history

  function IndexOf(ids: seq<nat>, id: nat): (k: nat)
    ensures k <= |ids| && (k < |ids| ==> ids[k] == id) && (k == |ids| <==> id !in ids)
    ensures id !in ids[..k]
  {
    if ids == [] then 0
    else if ids[0] == id then 0
    else IndexOf(ids[1..], id) + 1
  }

  /** The id first, then the others in their order, at most MAX_RECENT in all. */
  function MovedToFront(ids: seq<nat>, id: nat): seq<nat> {
    var k := IndexOf(ids, id);
    if k < |ids| then [id] + ids[..k] + ids[k + 1..]
    else [id] + (if |ids| < MAX_RECENT then ids else ids[..MAX_RECENT - 1])
  }

  lemma MovedToFrontKeeps(ids: seq<nat>, id: nat)
    requires Distinct(ids) && |ids| <= MAX_RECENT
    ensures var moved := MovedToFront(ids, id);
      && Distinct(moved) && |moved| <= MAX_RECENT && moved[0] == id
      && (forall x :: x in moved ==> x == id || x in ids)
      && (forall x :: x in ids && x !in moved ==> |ids| == MAX_RECENT && x == ids[MAX_RECENT - 1] && id !in ids)
  {
    var k, moved := IndexOf(ids, id), MovedToFront(ids, id);
    if k < |ids| {
      assert ids == ids[..k] + [id] + ids[k + 1..];
    } else if |ids| == MAX_RECENT {
      assert ids == ids[..MAX_RECENT - 1] + [ids[MAX_RECENT - 1]];
    }
  }

  /** The distinct nonzero values, in the order in which they first occur. */
  function FirstDistinct(values: seq<nat>): (ids: seq<nat>)
    ensures |ids| <= |values|
  {
    if values == [] then []
    else
      var n := |values| - 1;
      var ids := FirstDistinct(values[..n]);
      if values[n] != 0 && values[n] !in ids then ids + [values[n]] else ids
  }

  lemma {:induction false} IndexOfPrefix(values: seq<nat>, n: nat, id: nat)
    requires n <= |values|
    ensures id in values[..n] ==> IndexOf(values[..n], id) == IndexOf(values, id)
  {
    if n > 0 && values[0] != id {
      assert values[..n][1..] == values[1..][..n - 1];
      IndexOfPrefix(values[1..], n - 1, id);
    }
  }

  /** Three facts that leave no choice: none twice, which ones, in which order. */
  lemma {:induction false} FirstDistinctExactly(values: seq<nat>)
    ensures var ids := FirstDistinct(values);
      && Distinct(ids)
      && (forall id :: id in ids <==> id in values && id != 0)
      && (forall i, j :: 0 <= i < j < |ids| ==> IndexOf(values, ids[i]) < IndexOf(values, ids[j]))
  {
    if values != [] {
      var n := |values| - 1;
      var ids, before := FirstDistinct(values), FirstDistinct(values[..n]);
      FirstDistinctExactly(values[..n]);
      assert values == values[..n] + [values[n]];
      forall i, j | 0 <= i < j < |ids| ensures IndexOf(values, ids[i]) < IndexOf(values, ids[j]) {
        assert ids[i] == before[i] && before[i] in values[..n];
        IndexOfPrefix(values, n, ids[i]);
        IndexOfPrefix(values, n, ids[j]);
        if j == |before| {
          assert IndexOf(values, ids[i]) < n;
        }
      }
    }
  }

  /** More values only add ids behind. */
  lemma {:induction false} FirstDistinctGrows(values: seq<nat>, n: nat)
    requires n <= |values|
    ensures FirstDistinct(values[..n]) <= FirstDistinct(values)
  {
    if n < |values| {
      var all := |values| - 1;
      assert values[..all][..n] == values[..n];
      FirstDistinctGrows(values[..all], n);
    } else {
      assert values[..n] == values;
    }
  }

  function Capped(ids: seq<nat>, capacity: nat): seq<nat> {
    if |ids| <= capacity then ids else ids[..capacity]
  }

  /** The others stay in their order. */
  lemma MovedToFrontInOrder(ids: seq<nat>, id: nat, a: nat, b: nat)
    requires Distinct(ids) && |ids| <= MAX_RECENT && 0 < a < b < |MovedToFront(ids, id)|
    ensures var moved := MovedToFront(ids, id); IndexOf(ids, moved[a]) < IndexOf(ids, moved[b])
  {
    var k, moved := IndexOf(ids, id), MovedToFront(ids, id);
    var i, j := if a - 1 < k then a - 1 else a, if b - 1 < k then b - 1 else b;
    assert moved[a] == ids[i] && moved[b] == ids[j];
    IndexOfAt(ids, i);
    IndexOfAt(ids, j);
  }

  lemma IndexOfAt(ids: seq<nat>, i: nat)
    requires Distinct(ids) && i < |ids|
    ensures IndexOf(ids, ids[i]) == i
  {}

  /** iptv_load_id_file on the values its lines hold: as many of the distinct
      nonzero ones as there is room for. */
  method LoadIds(values: seq<nat>, capacity: nat) returns (ids: seq<nat>)
    ensures ids == Capped(FirstDistinct(values), capacity)
    ensures Distinct(ids) && |ids| <= capacity && 0 !in ids
    ensures forall id :: id in ids ==> id in values
    ensures |ids| < capacity ==> forall id :: id in values && id != 0 ==> id in ids
  {
    ids := [];
    var line := 0;
    while |ids| < capacity && line < |values|
      invariant line <= |values| && |ids| <= capacity && ids == FirstDistinct(values[..line])
    {
      assert values[..line + 1][..line] == values[..line];
      if values[line] != 0 && values[line] !in ids {
        ids := ids + [values[line]];
      }
      line := line + 1;
    }
    FirstDistinctGrows(values, line);
    FirstDistinctExactly(values);
    assert line == |values| ==> values[..line] == values;
    assert ids == FirstDistinct(values)[..|ids|];
    assert forall id :: id in ids ==> id in FirstDistinct(values);
  }
}
