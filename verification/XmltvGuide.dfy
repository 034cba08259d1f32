/** The now and next programmes of a channel (source/iptv/xmltv.c). */
module XmltvGuide {
  datatype Programme = Programme(channelId: string, start: int, stop: int, title: string)

  datatype Entry = Entry(title: string, start: int, stop: int)

  const BLANK := Entry("", 0, 0)

  datatype Channel = Channel(sourceId: nat, tvgId: string, current: Entry, next: Entry)

  predicate Concerns(p: Programme, source: nat, c: Channel) {
    p.start > 0 && p.stop > p.start && c.sourceId == source && c.tvgId != "" && c.tvgId == p.channelId
  }

  predicate OnAir(p: Programme, now: int) {
    p.start <= now < p.stop
  }

  function EntryOf(p: Programme): Entry {
    Entry(p.title, p.start, p.stop)
  }

  predicate ComesNext(p: Programme, c: Channel, now: int) {
    p.start > now && (c.next.start == 0 || p.start < c.next.start)
  }

  /** What one programme does to one channel. */
  function Applied(c: Channel, source: nat, p: Programme, now: int): Channel {
    if !Concerns(p, source, c) then c
    else if OnAir(p, now) then c.(current := EntryOf(p))
    else if ComesNext(p, c, now) then c.(next := EntryOf(p))
    else c
  }

  predicate Touches(p: Programme, source: nat, c: Channel, now: int) {
    Concerns(p, source, c) && (OnAir(p, now) || ComesNext(p, c, now))
  }

  function Touched(channels: seq<Channel>, p: Programme, source: nat, now: int): nat {
    if channels == [] then 0
    else
      var n := |channels| - 1;
      Touched(channels[..n], p, source, now) + if Touches(p, source, channels[n], now) then 1 else 0
  }

  /** xmltv_apply_programme on the attributes it has read. */
  method ApplyProgramme(channels: array<Channel>, source: nat, p: Programme, now: int) returns (touched: nat)
    modifies channels
    ensures forall i :: 0 <= i < channels.Length ==> channels[i] == Applied(old(channels[i]), source, p, now)
    ensures touched == Touched(old(channels[..]), p, source, now)
  {
    touched := 0;
    ghost var before := channels[..];
    if p.start <= 0 || p.stop <= p.start {
      NothingTouched(before, p, source, now);
      return;
    }
    var i := 0;
    while i < channels.Length
      invariant i <= channels.Length
      invariant forall k :: 0 <= k < i ==> channels[k] == Applied(before[k], source, p, now)
      invariant forall k :: i <= k < channels.Length ==> channels[k] == before[k]
      invariant touched == Touched(before[..i], p, source, now)
    {
      assert before[..i + 1][..i] == before[..i];
      var c := channels[i];
      if c.sourceId == source && c.tvgId != "" && c.tvgId == p.channelId {
        if p.start <= now && p.stop > now {
          channels[i] := c.(current := EntryOf(p));
          touched := touched + 1;
        } else if p.start > now && (c.next.start == 0 || p.start < c.next.start) {
          channels[i] := c.(next := EntryOf(p));
          touched := touched + 1;
        }
      }
      i := i + 1;
    }
    assert before[..i] == before;
  }

  lemma {:induction false} NothingTouched(channels: seq<Channel>, p: Programme, source: nat, now: int)
    requires p.start <= 0 || p.stop <= p.start
    ensures Touched(channels, p, source, now) == 0
  {
    if channels != [] { NothingTouched(channels[..|channels| - 1], p, source, now); }
  }

  // ---------------------------------------------------------------- a whole file

  function AppliedAll(c: Channel, source: nat, ps: seq<Programme>, now: int): Channel {
    if ps == [] then c
    else Applied(AppliedAll(c, source, ps[..|ps| - 1], now), source, ps[|ps| - 1], now)
  }

  /** A programme of this channel's guide id in its own source, with sound times. */
  ghost predicate About(p: Programme, source: nat, c: Channel) {
    p.channelId == c.tvgId && |c.tvgId| > 0 && source == c.sourceId && 0 < p.start < p.stop
  }

  ghost predicate Future(p: Programme, source: nat, c: Channel, now: int) {
    About(p, source, c) && now < p.start
  }

  ghost predicate Running(p: Programme, source: nat, c: Channel, now: int) {
    About(p, source, c) && p.start <= now && now < p.stop
  }

  /** The first in the file of those future programmes that start earliest. */
  ghost predicate Earliest(ps: seq<Programme>, source: nat, c: Channel, now: int, i: nat) {
    && i < |ps| && Future(ps[i], source, c, now)
    && forall j :: 0 <= j < |ps| && Future(ps[j], source, c, now) ==>
         ps[i].start < ps[j].start || (ps[i].start == ps[j].start && i <= j)
  }

  /** The last in the file of those on the air. */
  ghost predicate LastOnAir(ps: seq<Programme>, source: nat, c: Channel, now: int, i: nat) {
    && i < |ps| && Running(ps[i], source, c, now)
    && forall j :: i < j < |ps| ==> !Running(ps[j], source, c, now)
  }

  /** The programme is on the air, or comes before what the channel has next. */
  ghost predicate Concerned(c: Channel, p: Programme, source: nat, now: int) {
    Running(p, source, c, now) || (Future(p, source, c, now) && (c.next.start == 0 || p.start < c.next.start))
  }

  lemma TouchesConcerned(c: Channel, p: Programme, source: nat, now: int)
    ensures Touches(p, source, c, now) <==> Concerned(c, p, source, now)
    ensures Applied(c, source, p, now) != c ==> Concerned(c, p, source, now)
  {}

  ghost function ConcernedSet(channels: seq<Channel>, p: Programme, source: nat, now: int): set<nat> {
    set i: nat | i < |channels| && Concerned(channels[i], p, source, now)
  }

  /** The count is of the channels concerned, and every channel that changes is
      one of them. */
  lemma {:induction false} TouchedExactly(channels: seq<Channel>, p: Programme, source: nat, now: int)
    ensures Touched(channels, p, source, now) == |ConcernedSet(channels, p, source, now)|
    ensures forall i :: 0 <= i < |channels| && Applied(channels[i], source, p, now) != channels[i] ==>
      Concerned(channels[i], p, source, now)
  {
    if channels != [] {
      var n := |channels| - 1;
      TouchesConcerned(channels[n], p, source, now);
      hide Concerned, Applied, Touches;
      TouchedExactly(channels[..n], p, source, now);
      var before, all := ConcernedSet(channels[..n], p, source, now), ConcernedSet(channels, p, source, now);
      assert all == if Concerned(channels[n], p, source, now) then before + {n} else before;
    }
  }

  lemma {:induction false} IdentityKept(c: Channel, source: nat, ps: seq<Programme>, now: int)
    ensures var t := AppliedAll(c, source, ps, now); t.sourceId == c.sourceId && t.tvgId == c.tvgId
  {
    if ps != [] { IdentityKept(c, source, ps[..|ps| - 1], now); }
  }

  lemma EarliestStep(ps: seq<Programme>, source: nat, c: Channel, now: int, i: nat)
    requires ps != [] && Earliest(ps[..|ps| - 1], source, c, now, i)
    ensures var n := |ps| - 1;
      Earliest(ps, source, c, now, if Future(ps[n], source, c, now) && ps[n].start < ps[i].start then n else i)
  {
    assert forall j :: 0 <= j < |ps| - 1 ==> ps[j] == ps[..|ps| - 1][j];
  }

  /** After a whole file, next is the earliest future programme of the channel,
      and blank when the file has none. */
  lemma {:induction false} NextIsEarliest(c: Channel, source: nat, ps: seq<Programme>, now: int)
    requires c.next == BLANK
    ensures var next := AppliedAll(c, source, ps, now).next;
      || (next == BLANK && forall j :: 0 <= j < |ps| ==> !Future(ps[j], source, c, now))
      || exists i: nat :: Earliest(ps, source, c, now, i) && next == EntryOf(ps[i])
  {
    if ps != [] {
      var n := |ps| - 1;
      var init := ps[..n];
      NextIsEarliest(c, source, init, now);
      IdentityKept(c, source, init, now);
      var t := AppliedAll(c, source, init, now);
      if i: nat :| Earliest(init, source, c, now, i) && t.next == EntryOf(init[i]) {
        EarliestStep(ps, source, c, now, i);
        hide Earliest;
      } else if Future(ps[n], source, c, now) {
        assert Earliest(ps, source, c, now, n);
      }
    }
  }

  /** And now is the last programme of the file that is on the air. */
  lemma {:induction false} CurrentIsLastOnAir(c: Channel, source: nat, ps: seq<Programme>, now: int)
    ensures var current := AppliedAll(c, source, ps, now).current;
      || (current == c.current && forall j :: 0 <= j < |ps| ==> !Running(ps[j], source, c, now))
      || exists i: nat :: LastOnAir(ps, source, c, now, i) && current == EntryOf(ps[i])
  {
    if ps != [] {
      var n := |ps| - 1;
      CurrentIsLastOnAir(c, source, ps[..n], now);
      IdentityKept(c, source, ps[..n], now);
      var t := AppliedAll(c, source, ps[..n], now);
      if Running(ps[n], source, c, now) {
        assert LastOnAir(ps, source, c, now, n);
      } else if i: nat :| LastOnAir(ps[..n], source, c, now, i) && t.current == EntryOf(ps[i]) {
        assert LastOnAir(ps, source, c, now, i);
      }
    }
  }
}
