/** What a pool's continuum means: which servers are live, the slots they hold, and until when. */
module Continuum {
  import opened Division

  datatype Srv = Srv(weight: nat, retry: int)

  predicate Live(s: Srv, eject: bool, now: int)
  {
    !eject || s.retry <= now
  }

  function LiveCount(v: seq<Srv>, eject: bool, now: int): nat
  {
    if v == [] then 0
    else LiveCount(v[..|v| - 1], eject, now) + if Live(v[|v| - 1], eject, now) then 1 else 0
  }

  function LiveWeight(v: seq<Srv>, eject: bool, now: int): nat
  {
    if v == [] then 0
    else LiveWeight(v[..|v| - 1], eject, now) + if Live(v[|v| - 1], eject, now) then v[|v| - 1].weight else 0
  }

  function Copies(index: nat, n: nat): (r: seq<int>)
    ensures |r| == n && forall i :: 0 <= i < n ==> r[i] == index
  {
    seq(n, i => index)
  }

  /** The table: every live server's index as often as its weight, in the order of the servers. */
  function Slots(v: seq<Srv>, eject: bool, now: int): seq<int>
  {
    if v == [] then []
    else
      var last := |v| - 1;
      Slots(v[..last], eject, now) + if Live(v[last], eject, now) then Copies(last, v[last].weight) else []
  }

  /** The retry time of the first ejected server to come back, 0 when none is ejected. */
  function Deadline(v: seq<Srv>, eject: bool, now: int): int
  {
    if v == [] then 0
    else
      var d, s := Deadline(v[..|v| - 1], eject, now), v[|v| - 1];
      if Live(s, eject, now) then d
      else if d == 0 || s.retry < d then s.retry else d
  }

  /** What one more server adds to all of these. */
  lemma OneMore(v: seq<Srv>, i: nat, eject: bool, now: int)
    requires i < |v|
    ensures var live := Live(v[i], eject, now); var u, w := v[..i], v[..i + 1];
      && LiveCount(w, eject, now) == LiveCount(u, eject, now) + (if live then 1 else 0)
      && LiveWeight(w, eject, now) == LiveWeight(u, eject, now) + (if live then v[i].weight else 0)
      && Slots(w, eject, now) == Slots(u, eject, now) + (if live then Copies(i, v[i].weight) else [])
      && var d := Deadline(u, eject, now);
         Deadline(w, eject, now) == if live then d else if d == 0 || v[i].retry < d then v[i].retry else d
  {
    assert v[..i + 1][..i] == v[..i];
  }

  function SettledOne(s: Srv, eject: bool, now: int): Srv
  {
    if eject && s.retry <= now then s.(retry := 0) else s
  }

  /** The servers after an update: those that are back have no retry time. */
  function Settled(v: seq<Srv>, eject: bool, now: int): (r: seq<Srv>)
    ensures |r| == |v|
    ensures forall i :: 0 <= i < |v| ==> r[i] == SettledOne(v[i], eject, now)
  {
    seq(|v|, i requires 0 <= i < |v| => SettledOne(v[i], eject, now))
  }

  // ---- the deadline ----

  /** The deadline is the earliest retry time that has not come. */
  lemma {:induction false} DeadlineIsFirst(v: seq<Srv>, now: int)
    requires now >= 0
    ensures var d := Deadline(v, true, now);
      && (forall i :: 0 <= i < |v| && !Live(v[i], true, now) ==> 0 < d <= v[i].retry)
      && (d != 0 ==> d > now && exists i :: 0 <= i < |v| && !Live(v[i], true, now) && v[i].retry == d)
  {
    if v == [] {
    } else {
      var w := v[..|v| - 1];
      DeadlineIsFirst(w, now);
      var d := Deadline(v, true, now);
      if d != 0 {
        if d == Deadline(w, true, now) {
          var i :| 0 <= i < |w| && !Live(w[i], true, now) && w[i].retry == d;
          assert v[i] == w[i];
        } else {
          assert v[|v| - 1].retry == d;
        }
      }
    }
  }

  lemma {:induction false} SameLiveness(v: seq<Srv>, w: seq<Srv>, eject: bool, now: int, later: int)
    requires |v| == |w|
    requires forall i :: 0 <= i < |v| ==>
      v[i].weight == w[i].weight && Live(v[i], eject, now) == Live(w[i], eject, later)
    ensures Slots(v, eject, now) == Slots(w, eject, later)
    ensures LiveCount(v, eject, now) == LiveCount(w, eject, later)
  {
    if v == [] {
    } else {
      SameLiveness(v[..|v| - 1], w[..|w| - 1], eject, now, later);
    }
  }

  lemma {:induction false} MoreLive(v: seq<Srv>, w: seq<Srv>, eject: bool, now: int, later: int, k: nat)
    requires |v| == |w|
    requires forall i :: 0 <= i < |v| && Live(v[i], eject, now) ==> Live(w[i], eject, later)
    requires forall i :: 0 <= i < |v| ==> v[i].weight == w[i].weight > 0
    ensures LiveCount(v, eject, now) <= LiveCount(w, eject, later)
    ensures LiveWeight(v, eject, now) <= LiveWeight(w, eject, later)
    ensures k < |v| && !Live(v[k], eject, now) && Live(w[k], eject, later) ==>
      LiveCount(v, eject, now) < LiveCount(w, eject, later) && LiveWeight(v, eject, now) < LiveWeight(w, eject, later)
  {
    if v == [] {
    } else {
      MoreLive(v[..|v| - 1], w[..|w| - 1], eject, now, later, k);
    }
  }

  lemma {:induction false} SameDeadline(v: seq<Srv>, now: int, later: int)
    requires now >= 0 && later >= 0
    requires forall i :: 0 <= i < |v| && !Live(v[i], true, now) ==> later < v[i].retry
    ensures Deadline(Settled(v, true, now), true, later) == Deadline(v, true, now)
  {
    if v == [] {
    } else {
      var u := v[..|v| - 1];
      SameDeadline(u, now, later);
      assert Settled(v, true, now)[..|v| - 1] == Settled(u, true, now);
    }
  }

  /** Nothing changes before the deadline: an update rebuilds the table that is there. */
  lemma CacheSound(v: seq<Srv>, now: int, later: int)
    requires now >= 0 && later >= 0
    requires var d := Deadline(v, true, now); d == 0 || later < d
    ensures var w := Settled(v, true, now);
      && Slots(w, true, later) == Slots(v, true, now)
      && LiveCount(w, true, later) == LiveCount(v, true, now)
      && Deadline(w, true, later) == Deadline(v, true, now)
  {
    var w := Settled(v, true, now);
    DeadlineIsFirst(v, now);
    SameLiveness(v, w, true, now, later);
    SameDeadline(v, now, later);
  }

  /** At the deadline a server comes back. */
  lemma DeadlineBringsBack(v: seq<Srv>, now: int, later: int)
    requires now >= 0 && forall i :: 0 <= i < |v| ==> v[i].weight > 0
    requires var d := Deadline(v, true, now); d != 0 && later >= d
    ensures LiveCount(Settled(v, true, now), true, later) > LiveCount(v, true, now)
    ensures LiveWeight(Settled(v, true, now), true, later) > LiveWeight(v, true, now)
  {
    DeadlineIsFirst(v, now);
    var d := Deadline(v, true, now);
    var k :| 0 <= k < |v| && !Live(v[k], true, now) && v[k].retry == d;
    MoreLive(v, Settled(v, true, now), true, now, later, k);
  }

  /** Without ejection there is no deadline. */
  lemma {:induction false} NoDeadline(v: seq<Srv>, now: int)
    ensures Deadline(v, false, now) == 0
  {
    if v == [] {
    } else {
      NoDeadline(v[..|v| - 1], now);
    }
  }

  /** What an update leaves of the servers is what it would find again at the same time. */
  lemma SettledAgain(v: seq<Srv>, eject: bool, now: int)
    requires now >= 0
    ensures var w := Settled(v, eject, now);
      && Settled(w, eject, now) == w
      && Deadline(w, eject, now) == Deadline(v, eject, now)
      && LiveCount(w, eject, now) == LiveCount(v, eject, now)
      && Slots(w, eject, now) == Slots(v, eject, now)
  {
    SameLiveness(v, Settled(v, eject, now), eject, now, now);
    if eject {
      DeadlineIsFirst(v, now);
      SameDeadline(v, now, now);
    } else {
      NoDeadline(v, now);
      NoDeadline(Settled(v, eject, now), now);
    }
  }

  // ---- the windows ----

  function Dispatched(table: seq<int>, hash: nat): int
    requires table != []
  {
    table[hash % |table|]
  }

  /** Where the hashes of a window of the table's length go. */
  function Window(table: seq<int>, hash: nat): (w: seq<int>)
    requires table != []
    ensures |w| == |table| && forall i :: 0 <= i < |w| ==> w[i] == Dispatched(table, hash + i)
  {
    seq(|table|, i requires 0 <= i < |table| => Dispatched(table, hash + i))
  }

  lemma WrapsOnce(n: nat, hash: nat, i: nat)
    requires i < n
    ensures (hash + i) % n == if hash % n + i < n then hash % n + i else hash % n + i - n
  {
    var q, r := hash / n, hash % n;
    assert hash == q * n + r;
    if r + i < n {
      RemainderIs(hash + i, n, q, r + i);
    } else {
      assert (q + 1) * n == q * n + n;
      RemainderIs(hash + i, n, q + 1, r + i - n);
    }
  }

  lemma {:induction false} WindowIsRotation(table: seq<int>, hash: nat)
    requires table != []
    ensures var r := hash % |table|; Window(table, hash) == table[r..] + table[..r]
  {
    var n, r := |table|, hash % |table|;
    forall i | 0 <= i < n
      ensures Window(table, hash)[i] == (table[r..] + table[..r])[i]
    {
      assert Window(table, hash)[i] == Dispatched(table, hash + i);
      WrapsOnce(n, hash, i);
    }
  }

  /** Over any such window every server is picked exactly as often as it is in the table. */
  lemma WindowIsFair(table: seq<int>, hash: nat)
    requires table != []
    ensures multiset(Window(table, hash)) == multiset(table)
  {
    var r := hash % |table|;
    WindowIsRotation(table, hash);
    assert table == table[..r] + table[r..];
  }

  lemma {:induction false} CopiesCount(index: nat, n: nat, k: nat)
    ensures multiset(Copies(index, n))[k] == if k == index then n else 0
  {
    if n == 0 {
    } else {
      CopiesCount(index, n - 1, k);
      assert Copies(index, n) == Copies(index, n - 1) + [index];
    }
  }

  /** A live server holds as many slots as its weight and an ejected one none. */
  lemma {:induction false} SlotsCount(v: seq<Srv>, eject: bool, now: int, k: nat)
    ensures multiset(Slots(v, eject, now))[k] == if k < |v| && Live(v[k], eject, now) then v[k].weight else 0
  {
    if v == [] {
    } else {
      var last := |v| - 1;
      SlotsCount(v[..last], eject, now, k);
      CopiesCount(last, v[last].weight, k);
    }
  }

  /** Every window of consecutive hashes picks each live server exactly weight times. */
  lemma DispatchByWeight(v: seq<Srv>, eject: bool, now: int, hash: nat, k: nat)
    requires Slots(v, eject, now) != []
    ensures multiset(Window(Slots(v, eject, now), hash))[k] ==
            if k < |v| && Live(v[k], eject, now) then v[k].weight else 0
  {
    WindowIsFair(Slots(v, eject, now), hash);
    SlotsCount(v, eject, now, k);
  }

  lemma {:induction false} SlotsLength(v: seq<Srv>, eject: bool, now: int)
    ensures |Slots(v, eject, now)| == LiveWeight(v, eject, now)
    ensures forall i :: 0 <= i < |Slots(v, eject, now)| ==> Slots(v, eject, now)[i] < |v|
  {
    if v == [] {
    } else {
      SlotsLength(v[..|v| - 1], eject, now);
    }
  }

  lemma {:induction false} LiveHasSlots(v: seq<Srv>, eject: bool, now: int)
    requires forall i :: 0 <= i < |v| ==> v[i].weight > 0
    ensures LiveCount(v, eject, now) <= LiveWeight(v, eject, now)
  {
    if v == [] {
    } else {
      LiveHasSlots(v[..|v| - 1], eject, now);
    }
  }

  /** The servers with all weights 1, which is how the random distribution takes them. */
  function Unit(v: seq<Srv>): (r: seq<Srv>)
    ensures |r| == |v| && forall i :: 0 <= i < |v| ==> r[i] == Srv(1, v[i].retry)
  {
    seq(|v|, i requires 0 <= i < |v| => Srv(1, v[i].retry))
  }

  lemma {:induction false} UnitWeight(v: seq<Srv>, eject: bool, now: int)
    ensures LiveWeight(Unit(v), eject, now) == LiveCount(v, eject, now)
  {
    if v == [] {
    } else {
      UnitWeight(v[..|v| - 1], eject, now);
      assert Unit(v)[..|v| - 1] == Unit(v[..|v| - 1]);
    }
  }

  /** With weights of 1 the random distribution builds the table that modula builds. */
  lemma UnitIsModula(v: seq<Srv>, eject: bool, now: int)
    requires forall i :: 0 <= i < |v| ==> v[i].weight == 1
    ensures Slots(Unit(v), eject, now) == Slots(v, eject, now)
  {
    assert Unit(v) == v;
  }
}
