/**
 The reservation cache (pkg/controllers/reserved_resource_amounts.go): per throttle, an inner map from pods
 to their amounts. Inner maps and resource lists are references; the views say what they hold.
 Locking is the subject of module CacheProtocol.
 */
module ReservedAmounts {
  import opened Wrappers
  import opened Names
  import opened ResourceLists
  import opened ResourceAmounts
  import opened PodModel

  /** One throttle's reservations. Each entry has its own list, written once, when it is made. */
  class PodAmounts {
    var m: map<Name, AmountRef>

    constructor ()
      ensures m == map[]
    {
      m := map[];
    }

    ghost predicate Valid()
      reads this
    {
      forall k | k in m :: m[k].requests != null && m[k].counts == Some(1)
    }

    ghost function Lists(): set<object>
      reads this
    {
      set k | k in m && m[k].requests != null :: m[k].requests as object
    }

    ghost function View(): map<Name, Amount>
      requires Valid()
      reads this, Lists()
    {
      map k | k in m :: ValueOf(m[k])
    }

    method Add(pod: Pod) returns (added: bool)
      requires Valid()
      modifies this
      ensures Valid() && View() == old(View())[pod.name := OfPod(pod.request)]
      ensures added <==> pod.name !in old(View())
    {
      added := pod.name !in m;
      var list := new ResourceList(pod.request);
      m := m[pod.name := AmountRef(Some(1), list)];
    }

    method Remove(name: Name) returns (removed: bool)
      requires Valid()
      modifies this
      ensures Valid() && View() == old(View()) - {name}
      ensures removed <==> name in old(View())
    {
      removed := name in m;
      m := m - {name};
    }

    /** Sums in place, but into a list of its own: no entry of the map is written. */
    method TotalResourceAmount() returns (total: AmountRef, names: set<Name>)
      requires Valid()
      ensures total.requests != null ==> fresh(total.requests)
      ensures ValueOf(total) == Total(View())
      ensures names == m.Keys
      ensures total.counts == if m == map[] then None else Some(|m|)
    {
      hide Sum, Total;
      ghost var view := View();
      total := AmountRef(None, null);
      assert view.Keys == m.Keys;
      NothingVisited(view);
      names := {};
      var todo := m.Keys;
      while todo != {}
        invariant todo <= m.Keys && names == m.Keys - todo
        invariant total.requests != null ==> fresh(total.requests)
        invariant view == View()
        invariant ValueOf(total) == Total(view - todo)
        decreases todo
      {
        var k :| k in todo;
        VisitingAddsTheEntry(view, todo, k);
        assert view[k] == ValueOf(m[k]);
        total := ResourceAmounts.Add(total, m[k]);
        names := names + {k};
        todo := todo - {k};
      }
      assert view - todo == view;
      TotalCountsPods(view);
    }
  }

  lemma NothingVisited(m: map<Name, Amount>)
    ensures Total(m - m.Keys) == NOTHING
  {
  }

  lemma VisitingAddsTheEntry(m: map<Name, Amount>, todo: set<Name>, k: Name)
    requires k in todo && k in m
    ensures Total(m - (todo - {k})) == Sum(Total(m - todo), m[k])
  {
    assert m - (todo - {k}) == (m - todo)[k := m[k]];
    assert m - todo - {k} == m - todo;
    TotalPutsIn(m - todo, k, m[k]);
  }

  function NamesOf(pods: seq<Pod>): set<Name> {
    set p | p in pods :: p.name
  }

  lemma NoNames(m: map<Name, Amount>, pods: seq<Pod>)
    ensures m - NamesOf(pods[..0]) == m
  {
  }

  lemma NamesSnoc(m: map<Name, Amount>, pods: seq<Pod>, i: nat)
    requires i < |pods|
    ensures m - NamesOf(pods[..i]) - {pods[i].name} == m - NamesOf(pods[..i+1])
  {
  }

  /** A throttle's reservations after a pod left it, joined it, or did both or neither. */
  function MovedEntry(m: map<Name, Amount>, pod: Pod, leaves: bool, joins: bool): map<Name, Amount> {
    if joins then m[pod.name := OfPod(pod.request)] else if leaves then m - {pod.name} else m
  }

  class ReservedResourceAmounts {
    var cache: map<Name, PodAmounts>

    constructor ()
      ensures cache == map[] && Valid()
    {
      cache := map[];
    }

    ghost predicate Valid()
      reads this, cache.Values
    {
      && (forall k | k in cache :: cache[k].Valid())
      && (forall j, k | j in cache && k in cache && j != k :: cache[j] != cache[k])
    }

    ghost function Footprint(): set<object>
      reads this
    {
      {this} + cache.Values
    }

    ghost function Lists(): set<object>
      reads this, cache.Values
    {
      set k, l | k in cache && l in cache[k].Lists() :: l
    }

    /** The pods reserved on a throttle; none when it has no inner map yet. */
    ghost function On(nn: Name): map<Name, Amount>
      requires Valid()
      reads this, cache.Values, Lists()
    {
      if nn in cache then cache[nn].View() else map[]
    }

    /** An inner map, once there, is never replaced. */
    twostate predicate KeepsInnerMaps()
      reads this
    {
      forall k | k in old(cache) :: k in cache && cache[k] == old(cache[k])
    }

    method GetPodAmounts(nn: Name) returns (m: PodAmounts)
      requires Valid()
      modifies this
      ensures Valid() && KeepsInnerMaps() && fresh(Footprint() - old(Footprint()))
      ensures nn in cache && cache[nn] == m
      ensures forall k :: On(k) == old(On(k))
    {
      if nn in cache {
        return cache[nn];
      }
      m := new PodAmounts();
      cache := cache[nn := m];
    }

    method AddPod(nn: Name, pod: Pod) returns (added: bool)
      requires Valid()
      modifies Footprint()
      ensures Valid() && KeepsInnerMaps() && fresh(Footprint() - old(Footprint()))
      ensures forall k :: On(k) == if k == nn then old(On(nn))[pod.name := OfPod(pod.request)] else old(On(k))
      ensures added <==> pod.name !in old(On(nn))
    {
      hide OfPod;
      var m := GetPodAmounts(nn);
      added := m.Add(pod);
    }

    method RemovePod(nn: Name, name: Name) returns (removed: bool)
      requires Valid()
      modifies Footprint()
      ensures Valid() && KeepsInnerMaps() && fresh(Footprint() - old(Footprint()))
      ensures forall k :: On(k) == if k == nn then old(On(nn)) - {name} else old(On(k))
      ensures removed <==> name in old(On(nn))
    {
      var m := GetPodAmounts(nn);
      removed := m.Remove(name);
    }

    /** One removal per throttle, in an arbitrary order. */
    method RemoveFromAll(name: Name, nns: set<Name>)
      requires Valid()
      modifies Footprint()
      ensures Valid() && KeepsInnerMaps() && fresh(Footprint() - old(Footprint()))
      ensures forall k :: On(k) == if k in nns then old(On(k)) - {name} else old(On(k))
    {
      var todo := nns;
      while todo != {}
        invariant todo <= nns
        invariant Valid() && KeepsInnerMaps() && fresh(Footprint() - old(Footprint()))
        invariant forall k :: On(k) == if k in nns - todo then old(On(k)) - {name} else old(On(k))
        decreases todo
      {
        var k :| k in todo;
        var _ := RemovePod(k, name);
        todo := todo - {k};
      }
    }

    /** One removal per pod, on one throttle. */
    method RemoveEach(nn: Name, pods: seq<Pod>)
      requires Valid()
      modifies Footprint()
      ensures Valid() && KeepsInnerMaps() && fresh(Footprint() - old(Footprint()))
      ensures forall k :: On(k) == if k == nn then old(On(k)) - NamesOf(pods) else old(On(k))
    {
      hide NamesOf;
      assert On(nn) - NamesOf(pods[..0]) == On(nn) by { NoNames(On(nn), pods); }
      for i := 0 to |pods|
        invariant Valid() && KeepsInnerMaps() && fresh(Footprint() - old(Footprint()))
        invariant forall k :: On(k) == if k == nn then old(On(k)) - NamesOf(pods[..i]) else old(On(k))
      {
        var _ := RemovePod(nn, pods[i].name);
        NamesSnoc(old(On(nn)), pods, i);
      }
      assert pods[..|pods|] == pods;
    }

    /** One reservation per throttle, in an arbitrary order. */
    method AddToAll(pod: Pod, nns: set<Name>)
      requires Valid()
      modifies Footprint()
      ensures Valid() && KeepsInnerMaps() && fresh(Footprint() - old(Footprint()))
      ensures forall k :: On(k) == if k in nns then old(On(k))[pod.name := OfPod(pod.request)] else old(On(k))
    {
      hide OfPod, PodAmounts.Valid;
      var todo := nns;
      while todo != {}
        invariant todo <= nns
        invariant Valid() && KeepsInnerMaps() && fresh(Footprint() - old(Footprint()))
        invariant forall k ::
          On(k) == if k in nns - todo then old(On(k))[pod.name := OfPod(pod.request)] else old(On(k))
        decreases todo
      {
        var k :| k in todo;
        var _ := AddPod(k, pod);
        todo := todo - {k};
      }
    }

    /** First un-reserves on every throttle left, then reserves, with the pod's new amount, on every one joined. */
    method MoveThrottleAssignmentForPods(pod: Pod, from: set<Name>, to: set<Name>)
      requires Valid()
      modifies Footprint()
      ensures Valid() && KeepsInnerMaps() && fresh(Footprint() - old(Footprint()))
      ensures forall k :: On(k) == MovedEntry(old(On(k)), pod, k in from, k in to)
    {
      RemoveFromAll(pod.name, from);
      label left:
      AddToAll(pod, to);
      forall k ensures On(k) == MovedEntry(old(On(k)), pod, k in from, k in to) {
        assert old@left(On(k)) == if k in from then old(On(k)) - {pod.name} else old(On(k));
      }
    }

    method ReservedResourceAmount(nn: Name) returns (total: Amount, names: set<Name>)
      requires Valid()
      ensures total == Total(On(nn)) && names == On(nn).Keys
    {
      if nn !in cache {
        return NOTHING, {};
      }
      var ref;
      ref, names := cache[nn].TotalResourceAmount();
      total := Amount(ref.counts, if ref.requests == null then map[] else ref.requests.q);
    }
  }
}
