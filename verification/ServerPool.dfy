/** The server pool and its two table distributions: src/hashkit/nc_modula.c, src/hashkit/nc_random.c
    and server_pool_update of src/nc_server.c. */
module ServerPool {
  import opened Continuum

  datatype Status = Ok | Error | NoMemory | Refused

  datatype Point = Point(index: int, value: int)

  function Indexes(p: seq<Point>): (t: seq<int>)
    ensures |t| == |p| && forall i :: 0 <= i < |p| ==> t[i] == p[i].index
  {
    seq(|p|, i requires 0 <= i < |p| => p[i].index)
  }

  lemma UnitSettled(v: seq<Srv>, eject: bool, now: int)
    requires now >= 0
    ensures Slots(Unit(Settled(v, eject, now)), eject, now) == Slots(Unit(v), eject, now)
    ensures LiveCount(Settled(v, eject, now), eject, now) == LiveCount(v, eject, now)
  {
    SameLiveness(Unit(v), Unit(Settled(v, eject, now)), eject, now, now);
    SameLiveness(v, Settled(v, eject, now), eject, now, now);
  }

  lemma WeightBound(v: seq<Srv>, k: nat, eject: bool, now: int)
    requires k <= |v|
    ensures LiveWeight(v[..k], eject, now) <= LiveWeight(v, eject, now)
    decreases |v| - k
  {
    if k < |v| {
      WeightBound(v, k + 1, eject, now);
      assert v[..k + 1][..k] == v[..k];
    } else {
      assert v[..k] == v;
    }
  }

  /** An update sees the same servers live before and after it clears their retry times. */
  lemma SettledSame(v: seq<Srv>, eject: bool, now: int)
    requires now >= 0
    ensures Slots(Settled(v, eject, now), eject, now) == Slots(v, eject, now)
    ensures LiveWeight(Settled(v, eject, now), eject, now) == LiveWeight(v, eject, now)
  {
    SameLiveness(v, Settled(v, eject, now), eject, now, now);
    SlotsLength(v, eject, now);
    SlotsLength(Settled(v, eject, now), eject, now);
  }

  class Pool {
    const servers: array<Srv>
    const autoEjectHosts: bool
    var nextRebuild: int
    var nliveServer: nat
    var continuum: array<Point>
    var nserverContinuum: nat
    var ncontinuum: nat

    // The filled slots never exceed the allocated ones.
    ghost predicate Valid()
      reads this`continuum, this`nserverContinuum, this`ncontinuum
    {
      ncontinuum <= nserverContinuum == continuum.Length
    }

    ghost function Table(): (t: seq<int>)
      requires Valid()
      reads this`continuum, this`nserverContinuum, this`ncontinuum, continuum
      ensures |t| == ncontinuum
    {
      Indexes(continuum[..ncontinuum])
    }

    constructor (servers: array<Srv>, autoEjectHosts: bool)
      ensures Valid() && this.servers == servers && this.autoEjectHosts == autoEjectHosts && fresh(continuum)
      ensures ncontinuum == 0 && nserverContinuum == 0 && nextRebuild == 0
    {
      this.servers := servers;
      this.autoEjectHosts := autoEjectHosts;
      nextRebuild, nliveServer, nserverContinuum, ncontinuum := 0, 0, 0, 0;
      continuum := new Point[0];
    }

    // Lines 48-76 of nc_modula.c: who is live, and when the next ejected server comes back.
    method CountLive(now: int) returns (totalWeight: nat)
      requires now >= 0
      modifies this`nextRebuild, this`nliveServer, servers
      ensures servers[..] == Settled(old(servers[..]), autoEjectHosts, now)
      ensures nextRebuild == Deadline(old(servers[..]), autoEjectHosts, now)
      ensures nliveServer == LiveCount(old(servers[..]), autoEjectHosts, now)
      ensures totalWeight == LiveWeight(old(servers[..]), autoEjectHosts, now)
    {
      ghost var v := servers[..];
      var nlive := 0;
      totalWeight := 0;
      nextRebuild := 0;
      var i := 0;
      while i < servers.Length
        invariant 0 <= i <= servers.Length
        invariant nlive == LiveCount(v[..i], autoEjectHosts, now)
        invariant totalWeight == LiveWeight(v[..i], autoEjectHosts, now)
        invariant nextRebuild == Deadline(v[..i], autoEjectHosts, now)
        invariant forall j :: 0 <= j < i ==> servers[j] == SettledOne(v[j], autoEjectHosts, now)
        invariant forall j :: i <= j < servers.Length ==> servers[j] == v[j]
      {
        assert v[..i + 1][..i] == v[..i];
        if autoEjectHosts {
          if servers[i].retry <= now {
            servers[i] := servers[i].(retry := 0);
            nlive := nlive + 1;
          } else if nextRebuild == 0 || servers[i].retry < nextRebuild {
            nextRebuild := servers[i].retry;
          }
        } else {
          nlive := nlive + 1;
        }
        if !autoEjectHosts || servers[i].retry <= now {
          totalWeight := totalWeight + servers[i].weight;
        }
        i := i + 1;
      }
      assert v[..servers.Length] == v;
      nliveServer := nlive;
    }

    // Lines 98-111 of nc_modula.c and 88-103 of nc_random.c: room for n slots and some more.
    method Reserve(n: nat, memory: bool) returns (status: Status)
      requires Valid()
      modifies this`continuum, this`nserverContinuum
      ensures Valid() && Table() == old(Table()) && (continuum == old(continuum) || fresh(continuum))
      ensures status == if n > old(nserverContinuum) && !memory then NoMemory else Ok
      ensures nserverContinuum == if n > old(nserverContinuum) && memory then n + 10 else old(nserverContinuum)
    {
      status := Ok;
      if n > nserverContinuum {
        if !memory {
          return NoMemory;
        }
        var grown := new Point[n + 10](_ => Point(0, 0));
        forall i | 0 <= i < continuum.Length {
          grown[i] := continuum[i];
        }
        assert grown[..ncontinuum] == continuum[..ncontinuum];
        continuum := grown;
        nserverContinuum := n + 10;
      }
    }

    // Lines 123-130 of nc_modula.c.
    method FillOne(server: nat, weight: nat, start: nat) returns (index: nat)
      requires start + weight <= continuum.Length
      modifies continuum
      ensures index == start + weight
      ensures Indexes(continuum[..index]) == Indexes(old(continuum[..start])) + Copies(server, weight)
    {
      index := start;
      var w := 0;
      while w < weight
        invariant 0 <= w <= weight && index == start + w
        invariant forall j :: 0 <= j < start ==> continuum[j] == old(continuum[j])
        invariant forall j :: start <= j < index ==> continuum[j].index == server
      {
        continuum[index] := Point(server, 0);
        index := index + 1;
        w := w + 1;
      }
    }

    // Lines 114-132 of nc_modula.c.
    method FillWeighted(now: int)
      requires Valid() && LiveWeight(servers[..], autoEjectHosts, now) <= nserverContinuum
      modifies this`ncontinuum, continuum
      ensures Valid() && Table() == Slots(servers[..], autoEjectHosts, now)
    {
      ghost var v := servers[..];
      var index := 0;
      var i := 0;
      while i < servers.Length
        invariant 0 <= i <= servers.Length && index == LiveWeight(v[..i], autoEjectHosts, now) <= continuum.Length
        invariant Indexes(continuum[..index]) == Slots(v[..i], autoEjectHosts, now)
      {
        assert v[..i + 1][..i] == v[..i];
        WeightBound(v, i + 1, autoEjectHosts, now);
        if autoEjectHosts && servers[i].retry > now {
          i := i + 1;
          continue;
        }
        index := FillOne(i, servers[i].weight, index);
        i := i + 1;
      }
      assert v[..servers.Length] == v;
      SlotsLength(v, autoEjectHosts, now);
      ncontinuum := index;
    }

    twostate predicate Untouched()
      requires old(Valid()) && Valid()
      reads this, servers, continuum
    {
      && servers[..] == old(servers[..]) && nextRebuild == old(nextRebuild) && nliveServer == old(nliveServer)
      && nserverContinuum == old(nserverContinuum) && Table() == old(Table())
    }

    // What an update leaves behind: v are the servers before it, size the slots that it needs and
    // table the table that it builds.
    twostate predicate Updated(now: int, memory: bool, status: Status, size: int, table: seq<int>)
      requires old(Valid()) && Valid()
      reads this, servers, continuum
    {
      var v := old(servers[..]);
      if now < 0 then
        status == Error && Untouched()
      else
        var grows := nliveServer != 0 && size > old(nserverContinuum);
        && servers[..] == Settled(v, autoEjectHosts, now)
        && nextRebuild == Deadline(v, autoEjectHosts, now)
        && nliveServer == LiveCount(v, autoEjectHosts, now)
        && status == (if grows && !memory then NoMemory else Ok)
        && nserverContinuum == (if grows && memory then size + 10 else old(nserverContinuum))
        && Table() == (if status == Ok && nliveServer != 0 then table else old(Table()))
    }

    // ---- what an update leaves, and for how long ----

    ghost predicate Weighed()
      reads servers
    {
      forall i :: 0 <= i < servers.Length ==> servers[i].weight > 0
    }

    // The deadline and the live count are those of the servers at that time.
    ghost predicate Counted(at: int)
      reads this`nextRebuild, this`nliveServer, servers
    {
      && at >= 0 && servers[..] == Settled(servers[..], autoEjectHosts, at)
      && nextRebuild == Deadline(servers[..], autoEjectHosts, at)
      && nliveServer == LiveCount(servers[..], autoEjectHosts, at)
    }

    // And so is the table, if a server is live.
    ghost predicate Current(at: int)
      requires Valid()
      reads this, servers, continuum
    {
      Counted(at) && (nliveServer != 0 ==> Table() == Slots(servers[..], autoEjectHosts, at))
    }

    // The table has a slot for each unit of the live servers' weight.
    ghost predicate Filled(at: int)
      reads this`ncontinuum, servers
    {
      ncontinuum == LiveWeight(servers[..], autoEjectHosts, at)
    }

    // What an update at that time may leave: when it ran out of memory, too short a table.
    ghost predicate Left(at: int)
      requires Valid()
      reads this, servers, continuum
    {
      Counted(at) && (Current(at) || ncontinuum < LiveWeight(servers[..], autoEjectHosts, at))
    }

    // The table that an update with memory would leave.
    ghost function Rebuilt(now: int): seq<int>
      requires Valid()
      reads this, servers, continuum
    {
      if LiveCount(servers[..], autoEjectHosts, now) == 0 then Table() else Slots(servers[..], autoEjectHosts, now)
    }

    twostate lemma UpdatedIsLeft(now: int, new memory: bool, new status: Status)
      requires old(Valid()) && Valid() && now >= 0
      requires Updated(now, memory, status, LiveWeight(old(servers[..]), autoEjectHosts, now),
                       Slots(old(servers[..]), autoEjectHosts, now))
      ensures Left(now) && (Current(now) <==> status == Ok)
      ensures status == Ok ==> Table() == old(Rebuilt(now))
    {
      ghost var v := old(servers[..]);
      SettledAgain(v, autoEjectHosts, now);
      SettledSame(v, autoEjectHosts, now);
      SlotsLength(v, autoEjectHosts, now);
    }

    // While an update keeps its live servers it finds the table, the count and the deadline again.
    lemma SameUntilDeadline(at: int, now: int)
      requires Counted(at) && now >= 0 && (nextRebuild == 0 || now < nextRebuild)
      ensures var v := servers[..]; var e := autoEjectHosts;
        && Slots(v, e, now) == Slots(v, e, at) && LiveCount(v, e, now) == LiveCount(v, e, at)
        && LiveWeight(v, e, now) == LiveWeight(v, e, at) && Deadline(v, e, now) == Deadline(v, e, at)
        && Settled(v, e, now) == v
    {
      var v := servers[..];
      if autoEjectHosts {
        CacheSound(v, at, now);
        DeadlineIsFirst(v, at);
      } else {
        SameLiveness(v, v, false, at, now);
        NoDeadline(v, at);
        NoDeadline(v, now);
      }
      SlotsLength(v, autoEjectHosts, at);
      SlotsLength(v, autoEjectHosts, now);
    }

    // At the deadline there are more.
    lemma MoreAtDeadline(at: int)
      requires Counted(at) && Weighed() && autoEjectHosts && nextRebuild != 0
      ensures LiveCount(servers[..], true, nextRebuild) > nliveServer
      ensures LiveWeight(servers[..], true, nextRebuild) > LiveWeight(servers[..], true, at)
    {
      DeadlineBringsBack(servers[..], at, nextRebuild);
    }

    // What an update leaves is current exactly if it had the memory to fill the table.
    lemma FilledIsCurrent(at: int)
      requires Valid() && Left(at) && nliveServer != 0
      ensures Current(at) <==> Filled(at)
    {
      SlotsLength(servers[..], autoEjectHosts, at);
    }

    // Exactly when the table that is kept is the one that an update would leave: the last update had the
    // memory to fill it, and it is not the very moment of the deadline.
    lemma KeptIsExact(at: int, now: int)
      requires Valid() && Weighed() && Left(at) && autoEjectHosts && nliveServer != 0
      requires now >= 0 && (nextRebuild == 0 || now <= nextRebuild)
      ensures Table() == Rebuilt(now) <==> Filled(at) && (nextRebuild == 0 || now != nextRebuild)
    {
      FilledIsCurrent(at);
      var v := servers[..];
      SlotsLength(v, true, at);
      SlotsLength(v, true, now);
      if nextRebuild == 0 || now < nextRebuild {
        SameUntilDeadline(at, now);
      } else {
        MoreAtDeadline(at);
      }
    }

    // Without a live server the table is kept anyway; the moment of the deadline is when one is back.
    lemma NoneLiveIsExact(at: int, now: int)
      requires Valid() && Weighed() && Counted(at) && autoEjectHosts && nliveServer == 0
      requires now >= 0 && nextRebuild != 0 && now <= nextRebuild
      ensures LiveCount(servers[..], true, now) > 0 <==> now == nextRebuild
      ensures now != nextRebuild ==> Rebuilt(now) == Table()
    {
      if now < nextRebuild {
        SameUntilDeadline(at, now);
      } else {
        MoreAtDeadline(at);
      }
    }

    // Any window of as many consecutive hashes as there are slots picks each live server weight times.
    lemma PicksByWeight(at: int, hash: nat, k: nat)
      requires Valid() && Weighed() && Current(at) && nliveServer != 0
      ensures ncontinuum > 0
      ensures multiset(Window(Table(), hash))[k] ==
              if k < servers.Length && Live(servers[k], autoEjectHosts, at) then servers[k].weight else 0
    {
      LiveHasSlots(servers[..], autoEjectHosts, at);
      SlotsLength(servers[..], autoEjectHosts, at);
      DispatchByWeight(servers[..], autoEjectHosts, at, hash, k);
    }

    // Lines 48-142 of nc_modula.c.
    method Refill(now: int, memory: bool) returns (status: Status)
      requires Valid() && Weighed() && now >= 0
      requires LiveWeight(servers[..], autoEjectHosts, now) + 10 < 0x1_0000_0000
      requires LiveCount(servers[..], autoEjectHosts, now) == 0 ==> ncontinuum != 0
      modifies this`nextRebuild, this`nliveServer, this`continuum, this`nserverContinuum, this`ncontinuum
      modifies servers, continuum
      ensures Valid() && (status == Ok ==> ncontinuum != 0) && (continuum == old(continuum) || fresh(continuum))
      ensures Updated(now, memory, status, LiveWeight(old(servers[..]), autoEjectHosts, now),
                      Slots(old(servers[..]), autoEjectHosts, now))
    {
      ghost var v := servers[..];
      LiveHasSlots(v, autoEjectHosts, now);
      SlotsLength(v, autoEjectHosts, now);
      var totalWeight := CountLive(now);
      SettledSame(v, autoEjectHosts, now);
      if nliveServer == 0 {
        return Ok;
      }
      status := Reserve(totalWeight, memory);
      if status == NoMemory {
        return;
      }
      FillWeighted(now);
    }

    method ModulaUpdate(now: int, memory: bool) returns (status: Status)
      requires Valid() && Weighed()
      requires LiveWeight(servers[..], autoEjectHosts, now) + 10 < 0x1_0000_0000
      requires now >= 0 && LiveCount(servers[..], autoEjectHosts, now) == 0 ==> ncontinuum != 0
      modifies this`nextRebuild, this`nliveServer, this`continuum, this`nserverContinuum, this`ncontinuum
      modifies servers, continuum
      ensures Valid() && (status == Ok ==> ncontinuum != 0) && (continuum == old(continuum) || fresh(continuum))
      ensures Updated(now, memory, status, LiveWeight(old(servers[..]), autoEjectHosts, now),
                      Slots(old(servers[..]), autoEjectHosts, now))
      ensures now >= 0 ==> Left(now) && (Current(now) <==> status == Ok)
      ensures now >= 0 && status == Ok ==> Table() == old(Rebuilt(now))
    {
      if now < 0 {
        return Error;
      }
      status := Refill(now, memory);
      UpdatedIsLeft(now, memory, status);
    }

    // Another update before the deadline needs no memory and leaves everything as it is.
    method UpdateAgain(ghost at: int, now: int, memory: bool) returns (status: Status)
      requires Valid() && Weighed() && Current(at) && ncontinuum != 0
      requires now >= 0 && (nextRebuild == 0 || now < nextRebuild)
      requires LiveWeight(servers[..], autoEjectHosts, now) + 10 < 0x1_0000_0000
      modifies this`nextRebuild, this`nliveServer, this`continuum, this`nserverContinuum, this`ncontinuum
      modifies servers, continuum
      ensures status == Ok && Valid() && Untouched() && Current(now)
    {
      SameUntilDeadline(at, now);
      SlotsLength(servers[..], autoEjectHosts, at);
      status := ModulaUpdate(now, memory);
    }

    // Lines 117-118 of nc_random.c.
    method PutOne(server: nat, index: nat)
      requires index < continuum.Length
      modifies continuum
      ensures Indexes(continuum[..index + 1]) == Indexes(old(continuum[..index])) + Copies(server, 1)
    {
      continuum[index] := Point(server, 0);
    }

    // Lines 106-122 of nc_random.c.
    method FillUnit(now: int)
      requires Valid() && LiveCount(servers[..], autoEjectHosts, now) <= nserverContinuum
      modifies this`ncontinuum, continuum
      ensures Valid() && Table() == Slots(Unit(servers[..]), autoEjectHosts, now)
    {
      ghost var u := Unit(servers[..]);
      assert u[..0] == [] && Slots([], autoEjectHosts, now) == [] && LiveWeight([], autoEjectHosts, now) == 0;
      assert Indexes(continuum[..0]) == [];
      hide Slots, LiveWeight, LiveCount, Indexes, Copies;
      UnitWeight(servers[..], autoEjectHosts, now);
      var index := 0;
      var i := 0;
      while i < servers.Length
        invariant 0 <= i <= servers.Length && index == LiveWeight(u[..i], autoEjectHosts, now) <= continuum.Length
        invariant Indexes(continuum[..index]) == Slots(u[..i], autoEjectHosts, now)
      {
        OneMore(u, i, autoEjectHosts, now);
        WeightBound(u, i + 1, autoEjectHosts, now);
        if autoEjectHosts && servers[i].retry > now {
          i := i + 1;
          continue;
        }
        PutOne(i, index);
        index := index + 1;
        i := i + 1;
      }
      assert u[..servers.Length] == u;
      SlotsLength(u, autoEjectHosts, now);
      ncontinuum := index;
    }

    // The table is the unit-weight table of the servers live at that time, if there are any.
    ghost predicate UnitCurrent(at: int)
      requires Valid()
      reads this, servers, continuum
    {
      Counted(at) && (nliveServer != 0 ==> Table() == Slots(Unit(servers[..]), autoEjectHosts, at))
    }

    ghost predicate Ones()
      reads servers
    {
      forall i :: 0 <= i < servers.Length ==> servers[i].weight == 1
    }

    twostate lemma UpdatedIsUnit(now: int, new memory: bool, new status: Status)
      requires old(Valid()) && Valid() && now >= 0
      requires Updated(now, memory, status, LiveCount(old(servers[..]), autoEjectHosts, now),
                       Slots(Unit(old(servers[..])), autoEjectHosts, now))
      ensures Counted(now) && (UnitCurrent(now) <==> status == Ok)
      ensures old(Ones()) ==>
        Updated(now, memory, status, LiveWeight(old(servers[..]), autoEjectHosts, now),
                Slots(old(servers[..]), autoEjectHosts, now))
    {
      ghost var v := old(servers[..]);
      SettledAgain(v, autoEjectHosts, now);
      UnitSettled(v, autoEjectHosts, now);
      UnitWeight(v, autoEjectHosts, now);
      UnitWeight(servers[..], autoEjectHosts, now);
      SlotsLength(Unit(v), autoEjectHosts, now);
      if old(Ones()) {
        assert Unit(v) == v;
        UnitIsModula(v, autoEjectHosts, now);
      }
    }

    // Any window of as many consecutive numbers as there are slots picks each live server once.
    lemma PicksOnce(at: int, random: nat, k: nat)
      requires Valid() && UnitCurrent(at) && nliveServer != 0
      ensures ncontinuum > 0
      ensures multiset(Window(Table(), random))[k] ==
              if k < servers.Length && Live(servers[k], autoEjectHosts, at) then 1 else 0
    {
      var u := Unit(servers[..]);
      UnitWeight(servers[..], autoEjectHosts, at);
      SlotsLength(u, autoEjectHosts, at);
      DispatchByWeight(u, autoEjectHosts, at, random, k);
    }

    // Lines 46-131 of nc_random.c.
    method RefillUnit(now: int, memory: bool) returns (status: Status)
      requires Valid() && now >= 0
      requires LiveCount(servers[..], autoEjectHosts, now) + 10 < 0x1_0000_0000
      requires LiveCount(servers[..], autoEjectHosts, now) == 0 ==> ncontinuum != 0
      modifies this`nextRebuild, this`nliveServer, this`continuum, this`nserverContinuum, this`ncontinuum
      modifies servers, continuum
      ensures Valid() && (status == Ok ==> ncontinuum != 0) && (continuum == old(continuum) || fresh(continuum))
      ensures Updated(now, memory, status, LiveCount(old(servers[..]), autoEjectHosts, now),
                      Slots(Unit(old(servers[..])), autoEjectHosts, now))
    {
      ghost var v := servers[..];
      UnitWeight(v, autoEjectHosts, now);
      SlotsLength(Unit(v), autoEjectHosts, now);
      var totalWeight := CountLive(now);
      UnitSettled(v, autoEjectHosts, now);
      if nliveServer == 0 {
        return Ok;
      }
      status := Reserve(nliveServer, memory);
      if status == NoMemory {
        return;
      }
      FillUnit(now);
    }

    // With all weights 1 it leaves what ModulaUpdate would leave.
    method RandomUpdate(now: int, memory: bool) returns (status: Status)
      requires Valid()
      requires LiveCount(servers[..], autoEjectHosts, now) + 10 < 0x1_0000_0000
      requires now >= 0 && LiveCount(servers[..], autoEjectHosts, now) == 0 ==> ncontinuum != 0
      modifies this`nextRebuild, this`nliveServer, this`continuum, this`nserverContinuum, this`ncontinuum
      modifies servers, continuum
      ensures Valid() && (status == Ok ==> ncontinuum != 0) && (continuum == old(continuum) || fresh(continuum))
      ensures Updated(now, memory, status, LiveCount(old(servers[..]), autoEjectHosts, now),
                      Slots(Unit(old(servers[..])), autoEjectHosts, now))
      ensures old(Ones()) ==>
        Updated(now, memory, status, LiveWeight(old(servers[..]), autoEjectHosts, now),
                Slots(old(servers[..]), autoEjectHosts, now))
      ensures now >= 0 ==> Counted(now) && (UnitCurrent(now) <==> status == Ok)
    {
      if now < 0 {
        return Error;
      }
      status := RefillUnit(now, memory);
      UpdatedIsUnit(now, memory, status);
    }

    method ModulaDispatch(hash: nat) returns (index: int)
      requires Valid() && ncontinuum != 0
      ensures index == Dispatched(Table(), hash)
    {
      index := continuum[hash % ncontinuum].index;
    }

    // The random number in the place of the hash.
    method RandomDispatch(hash: nat, random: nat) returns (index: int)
      requires Valid() && ncontinuum != 0
      ensures index == Dispatched(Table(), random)
    {
      index := continuum[random % ncontinuum].index;
    }

    ghost predicate Skips(now: int)
      reads this`nextRebuild
    {
      autoEjectHosts && now >= 0 && (nextRebuild == 0 || now <= nextRebuild)
    }

    // server_pool_update: the pool is run again once the deadline has passed; at is when the last update was.
    method PoolUpdate(now: int, later: int, memory: bool, ghost at: int) returns (status: Status)
      requires Valid() && Weighed()
      requires LiveWeight(servers[..], autoEjectHosts, later) + 10 < 0x1_0000_0000
      requires later >= 0 && LiveCount(servers[..], autoEjectHosts, later) == 0 ==> ncontinuum != 0
      modifies this`nextRebuild, this`nliveServer, this`continuum, this`nserverContinuum, this`ncontinuum
      modifies servers, continuum
      ensures Valid()
      ensures if !autoEjectHosts || old(nextRebuild) == 0 then status == Ok && Untouched()
              else if now < 0 then status == Error && Untouched()
              else if now <= old(nextRebuild) then status == (if nliveServer == 0 then Refused else Ok) && Untouched()
              else Updated(later, memory, status, LiveWeight(old(servers[..]), autoEjectHosts, later),
                           Slots(old(servers[..]), autoEjectHosts, later))
      ensures old(Left(at)) && old(Skips(now)) && nliveServer != 0 ==>
              (Table() == old(Rebuilt(now)) <==> old(Filled(at)) && (nextRebuild == 0 || now != nextRebuild))
      ensures old(Left(at)) && old(Skips(now)) && nliveServer == 0 && nextRebuild != 0 ==>
              status == Refused && (LiveCount(servers[..], true, now) > 0 <==> now == nextRebuild)
    {
      if old(Left(at)) && old(Skips(now)) {
        if nliveServer != 0 {
          KeptIsExact(at, now);
        } else if nextRebuild != 0 {
          NoneLiveIsExact(at, now);
        }
      }
      if !autoEjectHosts {
        return Ok;
      }
      if nextRebuild == 0 {
        return Ok;
      }
      if now < 0 {
        return Error;
      }
      if now <= nextRebuild {
        if nliveServer == 0 {
          return Refused;
        }
        return Ok;
      }
      status := ModulaUpdate(later, memory);
    }
  }

  // ---- runs that show where the conditions matter ----

  /** What an update finds of one server. */
  lemma OfOne(s: Srv, eject: bool, now: int)
    ensures Slots([s], eject, now) == if Live(s, eject, now) then Copies(0, s.weight) else []
    ensures Deadline([s], eject, now) == if Live(s, eject, now) then 0 else s.retry
    ensures LiveCount([s], eject, now) == if Live(s, eject, now) then 1 else 0
    ensures LiveWeight([s], eject, now) == if Live(s, eject, now) then s.weight else 0
  {
    assert [s][..0] == [];
  }

  /** What it finds of one more. */
  lemma OfNext(v: seq<Srv>, s: Srv, eject: bool, now: int)
    ensures Slots(v + [s], eject, now) ==
            Slots(v, eject, now) + if Live(s, eject, now) then Copies(|v|, s.weight) else []
    ensures Deadline(v + [s], eject, now) == var d := Deadline(v, eject, now);
            if Live(s, eject, now) then d else if d == 0 || s.retry < d then s.retry else d
    ensures LiveCount(v + [s], eject, now) == LiveCount(v, eject, now) + if Live(s, eject, now) then 1 else 0
    ensures LiveWeight(v + [s], eject, now) == LiveWeight(v, eject, now) + if Live(s, eject, now) then s.weight else 0
  {
    assert (v + [s])[..|v|] == v;
  }

  lemma OfTwo(s: Srv, t: Srv, now: int)
    requires s.retry <= now
    ensures var v := [s, t]; var back := t.retry <= now;
      && Slots(v, true, now) == Copies(0, s.weight) + (if back then Copies(1, t.weight) else [])
      && Deadline(v, true, now) == (if back then 0 else t.retry)
      && LiveCount(v, true, now) == (if back then 2 else 1)
      && LiveWeight(v, true, now) == s.weight + (if back then t.weight else 0)
  {
    hide Slots, Deadline, LiveCount, LiveWeight;
    assert [s] + [t] == [s, t];
    OfOne(s, true, now);
    OfNext([s], t, true, now);
  }

  method TwoServers(weight: nat) returns (p: Pool)
    requires 0 < weight < 100
    ensures p.Valid() && fresh(p) && fresh(p.servers) && fresh(p.continuum) && p.autoEjectHosts && p.Weighed()
    ensures p.servers.Length == 2 && p.servers[0] == Srv(1, 0) && p.servers[1] == Srv(weight, 100)
    ensures p.Table() == [0] && p.nserverContinuum == 11 && p.Current(50) && p.nextRebuild == 100 && p.nliveServer == 1
  {
    hide Slots, Deadline, LiveCount, LiveWeight;
    var servers := new Srv[2] [Srv(1, 0), Srv(weight, 100)];
    p := new Pool(servers, true);
    ghost var v := servers[..];
    assert v == [Srv(1, 0), Srv(weight, 100)];
    OfTwo(v[0], v[1], 50);
    var status := p.ModulaUpdate(50, true);
    assert p.servers[0] == p.servers[..][0] && p.servers[1] == p.servers[..][1];
  }

  /** At the very moment of the deadline the pool is left alone, though a server is back. */
  method DeadlineMissed() returns (p: Pool, status: Status)
    ensures p.Valid() && status == Ok && p.nextRebuild == 100
    ensures p.Table() == [0] && p.Rebuilt(100) == [0, 1]
  {
    hide Slots, Deadline, LiveCount, LiveWeight;
    p := TwoServers(1);
    ghost var v := p.servers[..];
    assert v == [Srv(1, 0), Srv(1, 100)];
    OfTwo(v[0], v[1], 100);
    status := p.PoolUpdate(100, 100, true, 50);
    assert p.servers[..] == v;
  }

  /** After an update that ran out of memory there is no deadline left, and the table stays too short. */
  method MemoryRunsOut(now: int) returns (p: Pool, first: Status, second: Status)
    requires now >= 150
    ensures p.Valid() && first == NoMemory && second == Ok && p.nextRebuild == 0
    ensures p.Table() == [0] && p.Rebuilt(now) != p.Table()
  {
    hide Slots, Deadline, LiveCount, LiveWeight;
    p := TwoServers(20);
    ghost var v := p.servers[..];
    assert v == [Srv(1, 0), Srv(20, 100)];
    OfTwo(v[0], v[1], 150);
    first := p.ModulaUpdate(150, false);
    ghost var w := p.servers[..];
    assert w == [Srv(1, 0), Srv(20, 0)];
    OfTwo(w[0], w[1], now);
    second := p.PoolUpdate(now, now, true, 150);
    assert p.servers[..] == w;
  }

  method OneServer() returns (p: Pool)
    ensures p.Valid() && fresh(p) && fresh(p.servers) && fresh(p.continuum) && p.autoEjectHosts
    ensures p.servers.Length == 1 && p.servers[0] == Srv(1, 0) && p.Table() == [0]
  {
    hide Slots, Deadline, LiveCount, LiveWeight;
    var servers := new Srv[1] [Srv(1, 0)];
    p := new Pool(servers, true);
    assert servers[..] == [Srv(1, 0)];
    OfOne(Srv(1, 0), true, 10);
    var status := p.ModulaUpdate(10, true);
    assert p.servers[0] == p.servers[..][0];
  }

  /** With no live server requests are refused up to and at the deadline, when the server is back. */
  method RefusedAtDeadline() returns (p: Pool, status: Status)
    ensures p.Valid() && status == Refused && p.nextRebuild == 100
    ensures p.Table() == [0] == p.Rebuilt(100) && LiveCount(p.servers[..], true, 100) == 1
  {
    hide Slots, Deadline, LiveCount, LiveWeight;
    p := OneServer();
    p.servers[0] := Srv(1, 100);
    assert p.servers[..] == [Srv(1, 100)];
    OfOne(Srv(1, 100), true, 50);
    OfOne(Srv(1, 100), true, 100);
    var ejected := p.ModulaUpdate(50, true);
    assert p.servers[..] == [Srv(1, 100)];
    status := p.PoolUpdate(100, 100, true, 50);
  }
}
