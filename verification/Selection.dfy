/** Turning a device's ticked playlists and artists into one list of tracks and, for
    each playlist, positions in that list. */
module Selection {
  import opened Wrappers

  datatype Track = Track(id: nat, missing: bool)

  /** What inspecting a track's source file gives. */
  datatype Probe = Vanished | Found(source: int) | StoreFails

  datatype InputTrack = InputTrack(id: nat, source: int)

  datatype InputPlaylist = InputPlaylist(name: string, indices: seq<nat>)

  /** A ticked playlist, with its entries if it is known, or an artist with its tracks. */
  datatype Ticked =
    | Playlist(name: string, entries: Option<seq<nat>>)
    | Artist(name: string, trackIds: seq<nat>)

  datatype Resolved<T> = Done(value: T) | Cancelled | Failed

  // ---- Independent reading of the result ----

  /** The ids in order of their first occurrence. */
  function FirstSeen(ids: seq<nat>): seq<nat> {
    if ids == [] then []
    else
      var front, last := ids[..|ids| - 1], ids[|ids| - 1];
      FirstSeen(front) + (if last in front then [] else [last])
  }

  function FirstAt(ids: seq<nat>, x: nat): (n: nat)
    requires x in ids
    ensures n < |ids| && ids[n] == x && x !in ids[..n]
  {
    if x in ids[..|ids| - 1] then
      assert ids[..|ids| - 1] <= ids;
      var n := FirstAt(ids[..|ids| - 1], x);
      assert ids[..n] == ids[..|ids| - 1][..n];
      n
    else |ids| - 1
  }

  lemma {:induction false} FirstSeenMembers(ids: seq<nat>, x: nat)
    ensures x in FirstSeen(ids) <==> x in ids
  {
    if ids != [] {
      var front, last := ids[..|ids| - 1], ids[|ids| - 1];
      FirstSeenMembers(front, x);
      assert ids == front + [last];
    }
  }

  /** Each id once, and in the order in which the ids first occur. */
  lemma {:induction false} FirstSeenOrder(ids: seq<nat>, i: nat, k: nat)
    requires i < k < |FirstSeen(ids)|
    ensures FirstSeen(ids)[i] in ids && FirstSeen(ids)[k] in ids
    ensures FirstSeen(ids)[i] != FirstSeen(ids)[k]
    ensures FirstAt(ids, FirstSeen(ids)[i]) < FirstAt(ids, FirstSeen(ids)[k])
  {
    var front, last := ids[..|ids| - 1], ids[|ids| - 1];
    assert ids == front + [last];
    var a, b := FirstSeen(ids)[i], FirstSeen(ids)[k];
    FirstSeenMembers(ids, a);
    FirstSeenMembers(ids, b);
    FirstSeenMembers(front, a);
    if k < |FirstSeen(front)| {
      FirstSeenOrder(front, i, k);
      FirstSeenMembers(front, b);
    } else {
      assert a in FirstSeen(front);
    }
  }

  lemma FirstSeenOneMore(ids: seq<nat>, id: nat)
    ensures FirstSeen(ids + [id]) == FirstSeen(ids) + (if id in FirstSeen(ids) then [] else [id])
  {
    FirstSeenMembers(ids, id);
    assert (ids + [id])[..|ids|] == ids;
  }

  lemma FirstSeenDistinct(ids: seq<nat>)
    ensures forall i, k :: 0 <= i < k < |FirstSeen(ids)| ==> FirstSeen(ids)[i] != FirstSeen(ids)[k]
  {
    forall i, k | 0 <= i < k < |FirstSeen(ids)| ensures FirstSeen(ids)[i] != FirstSeen(ids)[k] {
      FirstSeenOrder(ids, i, k);
    }
  }

  function ListOf(ticked: Ticked): Option<seq<nat>> {
    match ticked
    case Playlist(_, entries) => entries
    case Artist(_, trackIds) => if trackIds == [] then None else Some(trackIds)
  }

  /** What the request says about the world: the library, and each source file. */
  datatype World = World(byId: map<nat, Track>, hasLibraryPath: bool, probe: nat -> Probe) {
    function Status(id: nat): Probe {
      if id !in byId || byId[id].missing || !hasLibraryPath then Vanished else probe(id)
    }

    function Kept(ids: seq<nat>): seq<nat> {
      if ids == [] then []
      else
        var front, last := ids[..|ids| - 1], ids[|ids| - 1];
        Kept(front) + (if Status(last).Found? then [last] else [])
    }

    ghost predicate AnyFails(ids: seq<nat>) {
      exists i :: 0 <= i < |ids| && Status(ids[i]).StoreFails?
    }

    /** Ids of every list that makes it into the request, one list after the other. */
    function AllKept(ticked: seq<Ticked>): seq<nat> {
      if ticked == [] then []
      else
        var front, last := ticked[..|ticked| - 1], ticked[|ticked| - 1];
        AllKept(front) + (if ListOf(last).Some? then Kept(ListOf(last).value) else [])
    }

    /** The lists that make it into the request, by name. */
    function Listed(ticked: seq<Ticked>): seq<Ticked> {
      if ticked == [] then []
      else
        var front, last := ticked[..|ticked| - 1], ticked[|ticked| - 1];
        Listed(front) + (if ListOf(last).Some? then [last] else [])
    }

    /** How often resolving a list asks whether it is cancelled: once a track, up to the
        first for which the store fails. */
    function ListPolls(ids: seq<nat>): nat {
      if ids == [] then 0
      else if Status(ids[0]).StoreFails? then 1
      else 1 + ListPolls(ids[1..])
    }

    /** How often building a request does: once a ticked item, and for its list. */
    ghost function Polls(ticked: seq<Ticked>): nat {
      if ticked == [] then 0
      else
        match ListOf(ticked[0])
        case None => 1 + Polls(ticked[1..])
        case Some(ids) => 1 + ListPolls(ids) + if AnyFails(ids) then 0 else Polls(ticked[1..])
    }

    lemma PollsFrom(ticked: seq<Ticked>, n: nat)
      requires n < |ticked|
      ensures Polls(ticked[n..]) ==
        match ListOf(ticked[n])
        case None => 1 + Polls(ticked[n + 1..])
        case Some(ids) => 1 + ListPolls(ids) + (if AnyFails(ids) then 0 else Polls(ticked[n + 1..]))
    {
      assert ticked[n..][1..] == ticked[n + 1..];
    }

    lemma ListPollsFrom(ids: seq<nat>, n: nat)
      requires n < |ids|
      ensures ListPolls(ids[n..]) == if Status(ids[n]).StoreFails? then 1 else 1 + ListPolls(ids[n + 1..])
    {
      assert ids[n..][1..] == ids[n + 1..];
    }

    lemma {:induction false} KeptMembers(ids: seq<nat>, x: nat)
      ensures x in Kept(ids) <==> x in ids && Status(x).Found?
    {
      if ids != [] {
        var front, last := ids[..|ids| - 1], ids[|ids| - 1];
        KeptMembers(front, x);
        assert ids == front + [last];
      }
    }

    lemma KeptOneMore(ids: seq<nat>, i: nat)
      requires i < |ids|
      ensures Kept(ids[..i + 1]) == Kept(ids[..i]) + (if Status(ids[i]).Found? then [ids[i]] else [])
    {
      assert ids[..i + 1][..i] == ids[..i];
    }

    lemma OneMoreFails(ids: seq<nat>, i: nat)
      requires i < |ids|
      ensures AnyFails(ids[..i + 1]) <==> AnyFails(ids[..i]) || Status(ids[i]).StoreFails?
      ensures Status(ids[i]).StoreFails? ==> AnyFails(ids)
    {
    }

    lemma ListsOneMore(ticked: seq<Ticked>, n: nat)
      requires n < |ticked|
      ensures AllKept(ticked[..n + 1]) ==
        AllKept(ticked[..n]) + (if ListOf(ticked[n]).Some? then Kept(ListOf(ticked[n]).value) else [])
      ensures Listed(ticked[..n + 1]) == Listed(ticked[..n]) + (if ListOf(ticked[n]).Some? then [ticked[n]] else [])
    {
      assert ticked[..n + 1][..n] == ticked[..n];
    }

    /** Every kept id comes from some list. */
    lemma {:induction false} AllKeptFromLists(ticked: seq<Ticked>, x: nat)
      requires x in AllKept(ticked)
      ensures exists k :: (0 <= k < |Listed(ticked)| && ListOf(Listed(ticked)[k]).Some?
        && x in Kept(ListOf(Listed(ticked)[k]).value))
    {
      var front, last := ticked[..|ticked| - 1], ticked[|ticked| - 1];
      if x in AllKept(front) {
        AllKeptFromLists(front, x);
        var k :| 0 <= k < |Listed(front)| && ListOf(Listed(front)[k]).Some? && x in Kept(ListOf(Listed(front)[k]).value);
        assert Listed(ticked)[k] == Listed(front)[k];
      } else {
        assert Listed(ticked)[|Listed(front)|] == last;
      }
    }
  }

  ghost predicate PointsAt(indices: seq<nat>, tracks: seq<InputTrack>, ids: seq<nat>) {
    && |indices| == |ids|
    && forall j :: 0 <= j < |ids| ==> indices[j] < |tracks| && tracks[indices[j]].id == ids[j]
  }

  lemma PointsAtLonger(indices: seq<nat>, tracks: seq<InputTrack>, longer: seq<InputTrack>, ids: seq<nat>)
    requires PointsAt(indices, tracks, ids) && tracks <= longer
    ensures PointsAt(indices, longer, ids)
  {
  }

  lemma PointsAtOneMore(
      indices: seq<nat>, tracks: seq<InputTrack>, longer: seq<InputTrack>, ids: seq<nat>, id: nat, index: Option<nat>)
    requires PointsAt(indices, tracks, ids) && tracks <= longer
    requires index.Some? ==> index.value < |longer| && longer[index.value].id == id
    ensures PointsAt(if index.Some? then indices + [index.value] else indices, longer,
      ids + (if index.Some? then [id] else []))
  {
  }

  // ---- The resolver ----

  class Resolver {
    const world: World
    var indexOf: map<nat, nat>
    var tracks: seq<InputTrack>
    // Every resolvable id met so far, with repeats.
    ghost var seen: seq<nat>

    ghost predicate Valid()
      reads this
    {
      && |tracks| == |FirstSeen(seen)|
      && (forall i :: 0 <= i < |tracks| ==> tracks[i].id == FirstSeen(seen)[i])
      && (forall i :: 0 <= i < |tracks| ==> world.Status(tracks[i].id) == Found(tracks[i].source))
      && (forall i :: 0 <= i < |tracks| ==> tracks[i].id in indexOf && indexOf[tracks[i].id] == i)
      && (forall id :: id in indexOf ==> indexOf[id] < |tracks| && tracks[indexOf[id]].id == id)
    }

    constructor (world: World)
      ensures Valid() && this.world == world && tracks == [] && seen == []
    {
      this.world := world;
      indexOf, tracks, seen := map[], [], [];
    }

    /** Append a track not met before. */
    method AddTrack(id: nat)
      requires Valid() && id !in indexOf && world.Status(id).Found?
      modifies this
      ensures Valid() && seen == old(seen) + [id]
      ensures tracks == old(tracks) + [InputTrack(id, world.Status(id).source)]
      ensures indexOf == old(indexOf)[id := |old(tracks)|]
    {
      assert forall i :: 0 <= i < |tracks| ==> FirstSeen(seen)[i] == tracks[i].id != id;
      FirstSeenOneMore(seen, id);
      hide FirstSeen;
      indexOf := indexOf[id := |tracks|];
      tracks := tracks + [InputTrack(id, world.Status(id).source)];
      seen := seen + [id];
    }

    /** A repeated track changes nothing. */
    method MeetAgain(id: nat)
      requires Valid() && id in indexOf
      modifies `seen
      ensures Valid() && seen == old(seen) + [id]
    {
      assert FirstSeen(seen)[indexOf[id]] == id;
      FirstSeenOneMore(seen, id);
      seen := seen + [id];
    }

    /** The position of one track, if it can be resolved. */
    method ResolveOne(id: nat) returns (r: Resolved<Option<nat>>)
      requires Valid()
      modifies this
      ensures Valid() && old(tracks) <= tracks && !r.Cancelled?
      ensures r.Failed? <==> world.Status(id).StoreFails?
      ensures r.Done? ==> (r.value.Some? <==> world.Status(id).Found?)
      ensures r.Done? && r.value.Some? ==>
        (seen == old(seen) + [id] && r.value.value < |tracks| && tracks[r.value.value].id == id)
      ensures r.Done? && r.value.None? ==> seen == old(seen)
    {
      if id in indexOf {
        assert world.Status(id).Found?;
        MeetAgain(id);
        return Done(Some(indexOf[id]));
      }
      if id !in world.byId || world.byId[id].missing || !world.hasLibraryPath { return Done(None); }
      match world.probe(id) {
        case StoreFails => return Failed;
        case Vanished => return Done(None);
        case Found(_) =>
          AddTrack(id);
          return Done(Some(|tracks| - 1));
      }
    }

    /** What has been resolved of a list: its first n ids. */
    ghost predicate Resolving(ids: seq<nat>, n: nat, indices: seq<nat>, before: seq<nat>)
      requires n <= |ids|
      reads this
    {
      && Valid() && !world.AnyFails(ids[..n])
      && seen == before + world.Kept(ids[..n])
      && PointsAt(indices, tracks, world.Kept(ids[..n]))
    }

    /** One more id of a list. */
    method ResolveNext(ids: seq<nat>, n: nat, indices: seq<nat>, ghost before: seq<nat>) returns (r: Resolved<seq<nat>>)
      requires n < |ids| && Resolving(ids, n, indices, before)
      modifies this
      ensures Valid() && old(tracks) <= tracks && !r.Cancelled?
      ensures r.Done? ==> Resolving(ids, n + 1, r.value, before)
      ensures r.Failed? <==> world.Status(ids[n]).StoreFails?
      ensures r.Failed? ==> world.AnyFails(ids)
    {
      hide World.AnyFails, World.Kept, PointsAt, Valid;
      ghost var tracks0, seen0 := tracks, seen;
      var one := ResolveOne(ids[n]);
      world.OneMoreFails(ids, n);
      if one.Failed? { return Failed; }
      world.KeptOneMore(ids, n);
      PointsAtOneMore(indices, tracks0, tracks, world.Kept(ids[..n]), ids[n], one.value);
      assert seen0 + [ids[n]] == before + (world.Kept(ids[..n]) + [ids[n]]);
      return Done(if one.value.Some? then indices + [one.value.value] else indices);
    }

    /** The positions of one list's tracks, after so many times of asking whether it is
        cancelled; the answer is no for the first `cancelAt` times. The list fails exactly
        when the store fails for one of its tracks, unless it is cancelled first. */
    method ResolveIndices(ids: seq<nat>, cancelAt: Option<nat>, polled: nat)
      returns (r: Resolved<seq<nat>>, polls: nat)
      requires Valid() && (cancelAt.Some? ==> polled <= cancelAt.value)
      modifies this
      ensures Valid() && old(tracks) <= tracks
      ensures r.Cancelled? <==> cancelAt.Some? && cancelAt.value < polled + world.ListPolls(ids)
      ensures !r.Cancelled? ==> polls == polled + world.ListPolls(ids) && (r.Failed? <==> world.AnyFails(ids))
      ensures r.Done? ==>
        && !world.AnyFails(ids)
        && seen == old(seen) + world.Kept(ids)
        && PointsAt(r.value, tracks, world.Kept(ids))
    {
      var indices: seq<nat> := [];
      polls := polled;
      assert seen + [] == seen && Resolving(ids, 0, indices, seen);
      assert ids[0..] == ids;
      for i := 0 to |ids|
        invariant Valid() && old(tracks) <= tracks
        invariant Resolving(ids, i, indices, old(seen))
        invariant polls + world.ListPolls(ids[i..]) == polled + world.ListPolls(ids)
        invariant cancelAt.Some? ==> polls <= cancelAt.value
      {
        hide *;
        world.ListPollsFrom(ids, i);
        if cancelAt == Some(polls) { return Cancelled, polls; }
        polls := polls + 1;
        var next := ResolveNext(ids, i, indices, old(seen));
        if next.Failed? { return Failed, polls; }
        indices := next.value;
      }
      assert ids[..|ids|] == ids && ids[|ids|..] == [];
      return Done(indices), polls;
    }
  }

  ghost predicate Requested(world: World, ticked: seq<Ticked>, tracks: seq<InputTrack>, playlists: seq<InputPlaylist>) {
    && |tracks| == |FirstSeen(world.AllKept(ticked))|
    && (forall i :: 0 <= i < |tracks| ==> tracks[i].id == FirstSeen(world.AllKept(ticked))[i])
    && (forall i :: 0 <= i < |tracks| ==> world.Status(tracks[i].id) == Found(tracks[i].source))
    && PlaylistsPoint(world, ticked, tracks, playlists)
  }

  ghost predicate PlaylistsPoint(world: World, ticked: seq<Ticked>, tracks: seq<InputTrack>, playlists: seq<InputPlaylist>) {
    && |playlists| == |world.Listed(ticked)|
    && forall k :: 0 <= k < |playlists| ==>
      && ListOf(world.Listed(ticked)[k]).Some?
      && playlists[k].name == world.Listed(ticked)[k].name
      && PointsAt(playlists[k].indices, tracks, world.Kept(ListOf(world.Listed(ticked)[k]).value))
  }

  /** One more list keeps the earlier ones right and is right itself. */
  lemma PlaylistsPointOneMore(
      world: World, ticked: seq<Ticked>, n: nat, tracks: seq<InputTrack>, longer: seq<InputTrack>,
      playlists: seq<InputPlaylist>, indices: seq<nat>)
    requires n < |ticked| && ListOf(ticked[n]).Some?
    requires PlaylistsPoint(world, ticked[..n], tracks, playlists) && tracks <= longer
    requires PointsAt(indices, longer, world.Kept(ListOf(ticked[n]).value))
    ensures PlaylistsPoint(world, ticked[..n + 1], longer, playlists + [InputPlaylist(ticked[n].name, indices)])
  {
    world.ListsOneMore(ticked, n);
    var listed, listed' := world.Listed(ticked[..n]), world.Listed(ticked[..n + 1]);
    var playlists' := playlists + [InputPlaylist(ticked[n].name, indices)];
    forall k | 0 <= k < |playlists'|
      ensures ListOf(listed'[k]).Some? && playlists'[k].name == listed'[k].name
      ensures PointsAt(playlists'[k].indices, longer, world.Kept(ListOf(listed'[k]).value))
    {
      if k < |playlists| {
        assert playlists'[k] == playlists[k] && listed'[k] == listed[k];
        PointsAtLonger(playlists[k].indices, tracks, longer, world.Kept(ListOf(listed[k]).value));
      }
    }
  }

  /** What has been built of a request: its first n ticked items. */
  ghost predicate Building(resolver: Resolver, ticked: seq<Ticked>, n: nat, playlists: seq<InputPlaylist>)
    requires n <= |ticked|
    reads resolver
  {
    && resolver.Valid()
    && resolver.seen == resolver.world.AllKept(ticked[..n])
    && PlaylistsPoint(resolver.world, ticked[..n], resolver.tracks, playlists)
    && forall k :: 0 <= k < n ==> !ListFails(resolver.world, ticked[k])
  }

  /** One more ticked item: a known playlist or an artist with tracks is resolved, others are skipped. */
  method BuildNext(
      resolver: Resolver, ticked: seq<Ticked>, n: nat, playlists: seq<InputPlaylist>, cancelAt: Option<nat>, polled: nat)
    returns (r: Resolved<seq<InputPlaylist>>, polls: nat)
    requires n < |ticked| && Building(resolver, ticked, n, playlists)
    requires cancelAt.Some? ==> polled <= cancelAt.value
    modifies resolver
    ensures var list := ListOf(ticked[n]);
      var needed := polled + if list.Some? then resolver.world.ListPolls(list.value) else 0;
      && (r.Cancelled? <==> cancelAt.Some? && cancelAt.value < needed)
      && (!r.Cancelled? ==> polls == needed && (r.Failed? <==> ListFails(resolver.world, ticked[n])))
    ensures r.Done? ==> Building(resolver, ticked, n + 1, r.value)
  {
    hide PlaylistsPoint, PointsAt, World.AnyFails, World.Kept, World.AllKept, World.Listed, Resolver.Valid;
    resolver.world.ListsOneMore(ticked, n);
    var ids: Option<seq<nat>> := None;
    match ticked[n] {
      case Playlist(_, entries) => ids := entries;
      case Artist(_, trackIds) => if trackIds != [] { ids := Some(trackIds); }
    }
    if ids.None? {
      UnlistedChangesNothing(resolver.world, ticked, n, resolver.tracks, playlists);
      return Done(playlists), polled;
    }
    ghost var before := resolver.tracks;
    var indices;
    indices, polls := resolver.ResolveIndices(ids.value, cancelAt, polled);
    if indices.Cancelled? { return Cancelled, polls; }
    if indices.Failed? { return Failed, polls; }
    PlaylistsPointOneMore(resolver.world, ticked, n, before, resolver.tracks, playlists, indices.value);
    return Done(playlists + [InputPlaylist(ticked[n].name, indices.value)]), polls;
  }

  lemma UnlistedChangesNothing(
      world: World, ticked: seq<Ticked>, n: nat, tracks: seq<InputTrack>, playlists: seq<InputPlaylist>)
    requires n < |ticked| && ListOf(ticked[n]).None? && PlaylistsPoint(world, ticked[..n], tracks, playlists)
    ensures PlaylistsPoint(world, ticked[..n + 1], tracks, playlists)
  {
    world.ListsOneMore(ticked, n);
  }

  /** The whole request, from the ticked playlists first and the artists after them. It
      asks whether it is cancelled before the first item, before each item and before each
      track, and is told no `cancelAt` times; it fails exactly when the store fails for a
      track of some list, unless it is cancelled first. */
  method BuildRequest(world: World, ticked: seq<Ticked>, cancelAt: Option<nat>)
    returns (r: Resolved<(seq<InputTrack>, seq<InputPlaylist>)>)
    ensures r.Cancelled? <==> cancelAt.Some? && cancelAt.value <= world.Polls(ticked)
    ensures !r.Cancelled? ==> (r.Failed? <==> exists k :: 0 <= k < |ticked| && ListFails(world, ticked[k]))
    ensures r.Done? ==> Requested(world, ticked, r.value.0, r.value.1)
  {
    if cancelAt == Some(0) { return Cancelled; }
    var polls: nat := 1;
    var resolver := new Resolver(world);
    var playlists: seq<InputPlaylist> := [];
    assert Building(resolver, ticked, 0, playlists) && ticked[0..] == ticked;
    for n := 0 to |ticked|
      invariant resolver.world == world && Building(resolver, ticked, n, playlists)
      invariant polls + world.Polls(ticked[n..]) == 1 + world.Polls(ticked)
      invariant cancelAt.Some? ==> polls <= cancelAt.value
    {
      hide *;
      world.PollsFrom(ticked, n);
      FailsByList(world, ticked[n]);
      if cancelAt == Some(polls) { return Cancelled; }
      polls := polls + 1;
      var next;
      next, polls := BuildNext(resolver, ticked, n, playlists, cancelAt, polls);
      if next.Cancelled? { return Cancelled; }
      if next.Failed? { return Failed; }
      playlists := next.value;
    }
    assert ticked[..|ticked|] == ticked && ticked[|ticked|..] == [];
    return Done((resolver.tracks, playlists));
  }

  lemma FailsByList(world: World, ticked: Ticked)
    ensures ListFails(world, ticked) <==> ListOf(ticked).Some? && world.AnyFails(ListOf(ticked).value)
  {
  }

  ghost predicate ListFails(world: World, ticked: Ticked) {
    ListOf(ticked).Some? && world.AnyFails(ListOf(ticked).value)
  }

  /** What a finished request is worth: every track once, in first-seen order, each
      resolvable and used by some playlist. */
  lemma RequestIsMinimal(world: World, ticked: seq<Ticked>, tracks: seq<InputTrack>, playlists: seq<InputPlaylist>, i: nat)
    requires Requested(world, ticked, tracks, playlists) && i < |tracks|
    ensures forall k :: 0 <= k < i ==>
      && tracks[k].id != tracks[i].id
      && tracks[k].id in world.AllKept(ticked) && tracks[i].id in world.AllKept(ticked)
      && FirstAt(world.AllKept(ticked), tracks[k].id) < FirstAt(world.AllKept(ticked), tracks[i].id)
    ensures exists p, j :: 0 <= p < |playlists| && 0 <= j < |playlists[p].indices| && playlists[p].indices[j] == i
  {
    var all := world.AllKept(ticked);
    var x := tracks[i].id;
    FirstSeenMembers(all, x);
    forall k | 0 <= k < i
      ensures tracks[k].id != x && tracks[k].id in all && FirstAt(all, tracks[k].id) < FirstAt(all, x)
    {
      FirstSeenOrder(all, k, i);
    }
    world.AllKeptFromLists(ticked, x);
    var p :| 0 <= p < |world.Listed(ticked)| && ListOf(world.Listed(ticked)[p]).Some?
      && x in world.Kept(ListOf(world.Listed(ticked)[p]).value);
    var kept := world.Kept(ListOf(world.Listed(ticked)[p]).value);
    var j :| 0 <= j < |kept| && kept[j] == x;
    var n := playlists[p].indices[j];
    assert tracks[n].id == x;
    FirstSeenDistinct(all);
    assert n == i;
    assert playlists[p].indices[j] == i;
  }
}
