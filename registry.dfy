/** The channel registry of the event loop: which joysticks are connected
    (instance id to the axis count of their handle) and which MIDI channel
    each of them plays on, updated in place as devices come and go. */
module Registry {
  import opened Protocol
  import Mapper

  // Witness helpers: a non-empty set has a member, a map value has a key,
  // a non-empty map has a key.

  lemma HasMember(s: set<int>)
    requires s != {}
    ensures exists x :: x in s
  {
    if forall x :: x !in s {
      assert false;
    }
  }

  lemma HasKey(m: map<int, int>, v: int)
    requires v in m.Values
    ensures exists k :: k in m && m[k] == v
  {
    if forall k :: k in m ==> m[k] != v {
      assert false;
    }
  }

  lemma NotEmptyMap(m: map<int, int>)
    requires m != map[]
    ensures exists k :: k in m
  {
    if forall k :: k !in m {
      assert false;
    }
  }

  /** The largest element of `s`, or -1 for the empty set: Python's
      `max(s, default=-1)`. */
  ghost function Highest(s: set<int>): (m: int)
    ensures s == {} ==> m == -1
    ensures s != {} ==> m in s && forall x :: x in s ==> x <= m
    decreases s
  {
    if s == {} then -1
    else
      HasMember(s);
      var x :| x in s;
      var rest := s - {x};
      assert s == rest + {x};
      if rest == {} then
        assert s == {x};
        x
      else
        var top := Highest(rest);
        if x > top then x else top
  }

  /** The channel handed to a newly seen id: one more than the largest
      channel currently mapped, 0 when nothing is mapped. */
  ghost function NextChannel(channels: map<int, int>): (c: int)
    ensures channels == map[] ==> c == 0
    ensures forall id :: id in channels ==> channels[id] < c
    ensures channels != map[] ==> exists id :: id in channels && channels[id] == c - 1
  {
    assert forall id :: id in channels ==> channels[id] in channels.Values;
    var top := Highest(channels.Values);
    if channels == map[] then top + 1
    else
      NotEmptyMap(channels);
      var id :| id in channels;
      assert channels[id] in channels.Values;
      HasKey(channels, top);
      top + 1
  }

  /** The channel map after a device-added event for `id`: an id already
      mapped keeps its channel, a new id gets the next channel. */
  ghost function Assigned(channels: map<int, int>, id: int): (r: map<int, int>)
    ensures id in r
    ensures forall k :: k in channels ==> k in r && r[k] == channels[k]
    ensures id !in channels ==> forall k :: k in channels ==> channels[k] < r[id]
    ensures channels == map[] ==> r[id] == 0
  {
    if id in channels then channels else channels[id := NextChannel(channels)]
  }

  ghost predicate Injective(channels: map<int, int>) {
    forall a, b :: a in channels && b in channels && a != b ==> channels[a] != channels[b]
  }

  ghost predicate NonNegative(channels: map<int, int>) {
    forall id :: id in channels ==> channels[id] >= 0
  }

  /** Adding a device keeps channels pairwise distinct and non-negative. */
  lemma AssignedKeepsInvariant(channels: map<int, int>, id: int)
    requires Injective(channels) && NonNegative(channels)
    ensures Injective(Assigned(channels, id)) && NonNegative(Assigned(channels, id))
    ensures id in Assigned(channels, id) && Assigned(channels, id).Keys == channels.Keys + {id}
  {
  }

  /** Python's `max(values, default=-1)`, one value at a time. */
  method MaxChannel(values: set<int>) returns (top: int)
    ensures top == Highest(values)
  {
    top := -1;
    var seen := false;
    var rest := values;
    while rest != {}
      invariant rest <= values
      invariant seen <==> values - rest != {}
      invariant !seen ==> top == -1
      invariant seen ==> top in values - rest && forall v :: v in values - rest ==> v <= top
      decreases rest
    {
      HasMember(rest);
      var v :| v in rest;
      if !seen || v > top {
        top := v;
      }
      seen := true;
      assert values - (rest - {v}) == (values - rest) + {v};
      rest := rest - {v};
    }
    assert values - rest == values;
  }

  class ChannelRegistry {
    /** Connected joysticks: instance id to the axis count of the handle. */
    var joysticks: map<int, nat>
    /** Instance id to MIDI channel. */
    var channels: map<int, int>

    ghost predicate Valid()
      reads this
    {
      joysticks.Keys == channels.Keys && Injective(channels) && NonNegative(channels)
    }

    constructor ()
      ensures Valid() && joysticks == map[] && channels == map[]
    {
      joysticks := map[];
      channels := map[];
    }

    /** Device added: store the handle, then reuse the id's channel or
        assign the next one. Returns the id's channel. */
    method Add(id: int, numAxes: nat) returns (channel: int)
      requires Valid()
      modifies this
      ensures Valid()
      ensures joysticks == old(joysticks)[id := numAxes]
      ensures channels == Assigned(old(channels), id)
      ensures id in channels && channel == channels[id]
      ensures id in old(channels) ==> channels == old(channels) && channel == old(channels)[id]
      ensures id !in old(channels) ==> forall other :: other in old(channels) ==> old(channels)[other] < channel
    {
      AssignedKeepsInvariant(channels, id);
      joysticks := joysticks[id := numAxes];
      if id in channels {
        channel := channels[id];
      } else {
        var top := MaxChannel(channels.Values);
        channel := top + 1;
        channels := channels[id := channel];
      }
    }

    /** Device removed: delete the id from both maps; an id that is not
        connected is a KeyError and changes nothing. */
    method Remove(id: int) returns (r: Outcome)
      requires Valid()
      modifies this
      ensures Valid()
      ensures id in old(joysticks) ==>
                r == Pass && joysticks == old(joysticks) - {id} && channels == old(channels) - {id}
      ensures id !in old(joysticks) ==>
                r == Fail(UnknownDevice(id)) && joysticks == old(joysticks) && channels == old(channels)
    {
      if id !in joysticks {
        return Fail(UnknownDevice(id));
      }
      joysticks := joysticks - {id};
      channels := channels - {id};
      r := Pass;
    }

    /** One pass of the event loop body: update the registry on hot-plug
        events and return the messages of input events, in send order. */
    method Handle(e: Event) returns (r: Result<seq<Msg>>)
      requires Valid()
      modifies this
      ensures Valid()
      ensures e.DeviceAdded? ==>
                r == Ok([]) && joysticks == old(joysticks)[e.id := e.numAxes]
                && channels == Assigned(old(channels), e.id)
      ensures e.DeviceRemoved? && e.id in old(joysticks) ==>
                r == Ok([]) && joysticks == old(joysticks) - {e.id} && channels == old(channels) - {e.id}
      ensures e.DeviceRemoved? && e.id !in old(joysticks) ==>
                r == Err(UnknownDevice(e.id)) && joysticks == old(joysticks) && channels == old(channels)
      ensures e.IsInput() ==>
                r == Mapper.Translate(old(joysticks), old(channels), e)
                && joysticks == old(joysticks) && channels == old(channels)
    {
      match e
      case DeviceAdded(id, numAxes) =>
        var _ := Add(id, numAxes);
        r := Ok([]);
      case DeviceRemoved(id) =>
        var outcome := Remove(id);
        r := if outcome.Pass? then Ok([]) else Err(outcome.fault);
      case _ =>
        r := Mapper.Translate(joysticks, channels, e);
    }
  }

  /** The channel map after device-added events for `ids`, in order,
      starting from an empty registry with no removals. */
  ghost function ChannelsAfterAdds(ids: seq<int>): map<int, int> {
    if ids == [] then map[]
    else Assigned(ChannelsAfterAdds(ids[..|ids| - 1]), ids[|ids| - 1])
  }

  ghost predicate Distinct(ids: seq<int>) {
    forall i, j :: 0 <= i < j < |ids| ==> ids[i] != ids[j]
  }

  /** Distinct ids added to an empty registry get channels 0, 1, 2, ...
      in arrival order, and exactly those ids are mapped. */
  lemma {:induction false} ArrivalOrder(ids: seq<int>)
    requires Distinct(ids)
    ensures forall k :: k in ChannelsAfterAdds(ids) <==> k in ids
    ensures forall i :: 0 <= i < |ids| ==> ChannelsAfterAdds(ids)[ids[i]] == i
  {
    if ids != [] {
      var n := |ids| - 1;
      var prefix := ids[..n];
      ArrivalOrder(prefix);
      assert ids == prefix + [ids[n]];
      AddFresh(ChannelsAfterAdds(prefix), prefix, ids[n]);
    }
  }

  /** One arrival step: if `before` maps the ids of `prefix` to their
      positions, a fresh id is mapped to the next position. */
  lemma AddFresh(before: map<int, int>, prefix: seq<int>, last: int)
    requires last !in prefix
    requires forall k :: k in before <==> k in prefix
    requires forall i :: 0 <= i < |prefix| ==> prefix[i] in before && before[prefix[i]] == i
    ensures forall k :: k in Assigned(before, last) <==> k in prefix + [last]
    ensures forall i :: 0 <= i < |prefix + [last]| ==> Assigned(before, last)[(prefix + [last])[i]] == i
  {
    ChannelsSpan(before, prefix);
    var ids := prefix + [last];
    var after := Assigned(before, last);
    assert after == before[last := |prefix|];
    forall i | 0 <= i < |ids|
      ensures after[ids[i]] == i
    {
      if i < |prefix| {
        assert ids[i] == prefix[i];
      }
    }
  }

  /** A map whose channels are exactly 0 .. |ids|-1, one per id of `ids`,
      hands out channel |ids| next. */
  lemma ChannelsSpan(channels: map<int, int>, ids: seq<int>)
    requires forall k :: k in channels <==> k in ids
    requires forall i :: 0 <= i < |ids| ==> ids[i] in channels && channels[ids[i]] == i
    ensures NextChannel(channels) == |ids|
  {
    var c := NextChannel(channels);
    if ids == [] {
      assert channels == map[];
    } else {
      assert ids[|ids| - 1] in channels;
      var id :| id in channels && channels[id] == c - 1;
      var i :| 0 <= i < |ids| && ids[i] == id;
    }
  }

  /** Removing a device never raises the next channel; removing any
      device but the one on the top channel leaves it as it was, and
      removing the one on the top channel frees that channel, so it is
      handed out again (or a lower one) to the next new id. */
  lemma NextAfterRemove(channels: map<int, int>, id: int)
    requires id in channels && Injective(channels) && NonNegative(channels)
    ensures NextChannel(channels - {id}) <= NextChannel(channels)
    ensures channels[id] != NextChannel(channels) - 1 ==>
              NextChannel(channels - {id}) == NextChannel(channels)
    ensures channels[id] == NextChannel(channels) - 1 ==>
              NextChannel(channels - {id}) <= channels[id]
  {
    var rest := channels - {id};
    var c := NextChannel(channels);
    var c' := NextChannel(rest);
    if rest != map[] {
      var k :| k in rest && rest[k] == c' - 1;
      assert k != id && channels[k] != channels[id];
    }
    if channels[id] != c - 1 {
      var top :| top in channels && channels[top] == c - 1;
      assert top in rest;
    }
  }

  /** After the device on the top channel `t` is removed, `t` itself is
      handed out next exactly when it is 0 or channel `t - 1` is still
      held; otherwise a lower channel is. */
  lemma FreedTopChannel(channels: map<int, int>, id: int)
    requires id in channels && Injective(channels) && NonNegative(channels)
    requires channels[id] == NextChannel(channels) - 1
    ensures NextChannel(channels - {id}) == channels[id] <==>
              (channels[id] == 0 || exists k :: k in channels && k != id && channels[k] == channels[id] - 1)
  {
    NextAfterRemove(channels, id);
    var t := channels[id];
    var rest := channels - {id};
    var next := NextChannel(rest);
    if rest != map[] {
      var k :| k in rest && rest[k] == next - 1;
      assert k in channels && k != id && channels[k] == next - 1;
    }
    if exists k :: k in channels && k != id && channels[k] == t - 1 {
      var k :| k in channels && k != id && channels[k] == t - 1;
      assert k in rest;
    }
  }

  /** Unlike a high-water mark, removal frees the top channel: with two
      devices on channels 0 and 1, removing the second and adding a new
      device hands channel 1 out again. */
  lemma TopChannelReissued(a: int, b: int, c: int)
    requires a != b && c != a
    ensures ChannelsAfterAdds([a, b]) == map[a := 0, b := 1]
    ensures Assigned(ChannelsAfterAdds([a, b]) - {b}, c)[c] == 1
  {
    ArrivalOrder([a, b]);
    var m := ChannelsAfterAdds([a, b]);
    assert m.Keys == {a, b} by {
      assert forall k :: k in m <==> k == a || k == b;
    }
    assert m - {b} == map[a := 0];
    var next := NextChannel(map[a := 0]);
    var k :| k in map[a := 0] && map[a := 0][k] == next - 1;
    assert k == a;
  }

  /** With devices on channels 0 and 1, removing the first and adding it
      again gives it channel 2, not its old channel 0. */
  lemma ReaddedIdGetsFreshChannel(a: int, b: int)
    requires a != b
    ensures Assigned(ChannelsAfterAdds([a, b]) - {a}, a)[a] == 2
  {
    ArrivalOrder([a, b]);
    var m := ChannelsAfterAdds([a, b]);
    assert m.Keys == {a, b} by {
      assert forall k :: k in m <==> k == a || k == b;
    }
    assert m - {a} == map[b := 1];
    var c := NextChannel(map[b := 1]);
    var k :| k in map[b := 1] && map[b := 1][k] == c - 1;
    assert k == b;
  }

  /** A removed id that comes back is treated as a new id. Unless it held
      the top channel, it gets the channel that would have gone to the
      next new device, which differs from its old one; if it held the top
      channel, it gets that channel or a lower one. */
  lemma ReaddedChannel(channels: map<int, int>, id: int)
    requires id in channels && Injective(channels) && NonNegative(channels)
    ensures channels[id] != NextChannel(channels) - 1 ==>
              Assigned(channels - {id}, id)[id] == NextChannel(channels) != channels[id]
    ensures channels[id] == NextChannel(channels) - 1 ==>
              Assigned(channels - {id}, id)[id] <= channels[id]
  {
    NextAfterRemove(channels, id);
    assert id !in channels - {id};
  }
}
