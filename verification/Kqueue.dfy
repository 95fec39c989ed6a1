/** The kqueue event base of src/event/nc_kqueue.c: a change list that the next kevent() call
    applies, and the batch of events which that call returns. */
module Kqueue {

  class Conn {
    var sd: int
    var recvActive: bool
    var sendActive: bool

    constructor ()
      ensures sd == -1 && !recvActive && !sendActive
    {
      sd, recvActive, sendActive := -1, false, false;
    }
  }

  // A filter is 0 in an event that was eliminated.
  datatype Filter = Read | Write | Zero

  datatype Flags = Flags(add: bool, clear: bool, delete: bool, error: bool)

  datatype Errno = None | EBADF | EINVAL | ENOENT | EINTR | Other

  datatype Kevent = Kevent(ident: int, filter: Filter, flags: Flags, data: Errno, udata: Conn)

  const ADD := Flags(true, true, false, false)
  const DELETE := Flags(false, false, true, false)
  const NONE := Flags(false, false, false, false)

  /** What the callback is told: EVENT_READ, EVENT_WRITE and EVENT_ERR. */
  datatype Mask = Mask(read: bool, write: bool, err: bool)

  /** What the batch loop passes to the callback for an event; nothing set means no call. */
  function Events(ev: Kevent): (m: Mask)
  {
    if ev.flags.error && (ev.data == EBADF || ev.data == EINVAL || ev.data == ENOENT || ev.data == EINTR) then
      Mask(false, false, false)
    else
      Mask(ev.filter == Read, ev.filter == Write, ev.flags.error)
  }

  predicate Delivers(ev: Kevent)
  {
    Events(ev) != Mask(false, false, false)
  }

  // ---- the kernel ----

  datatype Key = Key(sd: int, filter: Filter)

  /** A registration is identified by its descriptor and its filter. */
  type Registry = map<Key, Conn>

  /** The additions that the kernel refuses, by their place in the change list, and why. */
  type Refusals = map<int, Errno>

  function KeyOf(c: Kevent): Key
  {
    Key(c.ident, c.filter)
  }

  function Registered(r: Registry, c: Kevent): Registry
  {
    if c.flags.add then r[KeyOf(c) := c.udata] else r - {KeyOf(c)}
  }

  /** The registrations after the changes, in order, if none fails. */
  function Net(r: Registry, changes: seq<Kevent>): Registry
  {
    if changes == [] then r else Registered(Net(r, changes[..|changes| - 1]), changes[|changes| - 1])
  }

  /** The error of a change that cannot be made: the descriptor is closed, or was closed and
      newer again, so that there is nothing to delete, or the kernel refuses the addition. */
  function Failure(r: Registry, open: set<int>, c: Kevent, refused: Errno): (e: Errno)
    ensures e != None && e != EBADF && e != ENOENT ==> c.flags.add && e == refused
  {
    if c.ident !in open then EBADF
    else if c.flags.add then refused
    else if KeyOf(c) !in r then ENOENT
    else None
  }

  function Why(refused: Refusals, i: int): Errno
  {
    if i in refused then refused[i] else None
  }

  function Failed(c: Kevent, e: Errno): Kevent
  {
    c.(flags := c.flags.(error := true), data := e)
  }

  /** What kevent() makes of the change list: the registrations, and an error event for each
      change that failed. */
  function Applied(r: Registry, open: set<int>, changes: seq<Kevent>, refused: Refusals): (Registry, seq<Kevent>)
  {
    if changes == [] then (r, [])
    else
      var last := |changes| - 1;
      var (r', errors) := Applied(r, open, changes[..last], refused);
      var e := Failure(r', open, changes[last], Why(refused, last));
      if e == None then (Registered(r', changes[last]), errors)
      else (r', errors + [Failed(changes[last], e)])
  }

  /** Change i is an addition for an open descriptor that the kernel refuses. */
  predicate Refuses(open: set<int>, changes: seq<Kevent>, refused: Refusals, i: int)
    requires 0 <= i < |changes|
  {
    changes[i].flags.add && changes[i].ident in open && Why(refused, i) != None
  }

  ghost predicate NotRefused(open: set<int>, changes: seq<Kevent>, refused: Refusals, k: Key)
  {
    forall i :: 0 <= i < |changes| && Refuses(open, changes, refused, i) ==> KeyOf(changes[i]) != k
  }

  function RefusedKeys(open: set<int>, changes: seq<Kevent>, refused: Refusals): set<Key>
  {
    set i | 0 <= i < |changes| && Refuses(open, changes, refused, i) :: KeyOf(changes[i])
  }

  lemma RefusedKey(open: set<int>, changes: seq<Kevent>, refused: Refusals, i: int)
    requires 0 <= i < |changes| && Refuses(open, changes, refused, i)
    ensures KeyOf(changes[i]) in RefusedKeys(open, changes, refused)
  {
  }

  function Keys(changes: seq<Kevent>): set<Key>
  {
    set i | 0 <= i < |changes| :: KeyOf(changes[i])
  }

  lemma KeysOfNone()
    ensures Keys([]) == {}
  {
  }

  lemma KeysOfFew(a: Kevent, b: Kevent)
    ensures Keys([a]) == {KeyOf(a)} && Keys([a, b]) == Keys([a]) + Keys([b])
  {
    assert [a, b][0] == a && [a, b][1] == b && [a][0] == a && [b][0] == b;
  }

  function Without(r: Registry, sd: int): Registry
  {
    map k | k in r && k.sd != sd :: r[k]
  }

  /** The list is applied as if every change succeeded, except for closed descriptors and for
      what the kernel refuses. */
  lemma {:induction false} AppliedIsNet(r: Registry, open: set<int>, changes: seq<Kevent>, refused: Refusals, k: Key)
    requires k in r ==> k.sd in open
    requires NotRefused(open, changes, refused, k)
    ensures var a := Applied(r, open, changes, refused).0; var n := Net(r, changes);
      (k in a <==> k in n && k.sd in open) && (k in a ==> a[k] == n[k])
  {
    if changes == [] {
    } else {
      var b, c := changes[..|changes| - 1], changes[|changes| - 1];
      assert NotRefused(open, b, refused, k) by {
        assert forall i :: 0 <= i < |b| ==> Refuses(open, b, refused, i) == Refuses(open, changes, refused, i);
      }
      AppliedIsNet(r, open, b, refused, k);
      assert Net(r, changes) == Registered(Net(r, b), c);
      assert KeyOf(c) == k ==> !Refuses(open, changes, refused, |b|);
    }
  }

  /** Only open descriptors are registered. */
  lemma {:induction false} AppliedIsOpen(r: Registry, open: set<int>, changes: seq<Kevent>, refused: Refusals)
    requires forall k :: k in r ==> k.sd in open
    ensures forall k :: k in Applied(r, open, changes, refused).0 ==> k.sd in open
  {
    if changes == [] {
    } else {
      AppliedIsOpen(r, open, changes[..|changes| - 1], refused);
    }
  }

  /** A callback is made for the error of change i: it is an addition that the kernel refuses, and not
      for one of the reasons that the loop passes over. */
  predicate Reported(open: set<int>, changes: seq<Kevent>, refused: Refusals, i: int)
    requires 0 <= i < |changes|
  {
    Refuses(open, changes, refused, i) && Delivers(Failed(changes[i], Why(refused, i)))
  }

  /** Error events come from failed changes only; those that are not passed over are reported additions. */
  lemma {:induction false} ErrorEvents(r: Registry, open: set<int>, changes: seq<Kevent>, refused: Refusals, e: Kevent)
    requires e in Applied(r, open, changes, refused).1
    ensures e.flags.error
    ensures Delivers(e) ==>
      exists i :: 0 <= i < |changes| && Reported(open, changes, refused, i) && e == Failed(changes[i], Why(refused, i))
  {
    if changes == [] {
    } else {
      var last := |changes| - 1;
      var b := changes[..last];
      var (r', errors) := Applied(r, open, b, refused);
      if e in errors {
        ErrorEvents(r, open, b, refused, e);
        if Delivers(e) {
          var i :| 0 <= i < |b| && Reported(open, b, refused, i) && e == Failed(b[i], Why(refused, i));
          assert Reported(open, changes, refused, i) && e == Failed(changes[i], Why(refused, i));
        }
      } else {
        assert e == Failed(changes[last], Failure(r', open, changes[last], Why(refused, last)));
        assert Delivers(e) ==> Reported(open, changes, refused, last);
      }
    }
  }

  lemma {:induction false} RefusedIsError(r: Registry, open: set<int>, changes: seq<Kevent>, refused: Refusals, i: int)
    requires 0 <= i < |changes| && Refuses(open, changes, refused, i)
    ensures Failed(changes[i], Why(refused, i)) in Applied(r, open, changes, refused).1
  {
    var last := |changes| - 1;
    var b := changes[..last];
    if i == last {
    } else {
      assert Refuses(open, b, refused, i);
      RefusedIsError(r, open, b, refused, i);
    }
  }

  /** Exactly when an error callback is made for c, live or not: an addition for it was in the list, its
      descriptor number is open, and the kernel refuses it for another reason than those passed over. */
  lemma ErrorReaches(r: Registry, open: set<int>, changes: seq<Kevent>, refused: Refusals, c: Conn)
    ensures (exists e :: e in Applied(r, open, changes, refused).1 && Delivers(e) && e.udata == c) <==>
            (exists i :: 0 <= i < |changes| && Reported(open, changes, refused, i) && changes[i].udata == c)
  {
    if e :| e in Applied(r, open, changes, refused).1 && Delivers(e) && e.udata == c {
      ErrorEvents(r, open, changes, refused, e);
    }
    if i :| 0 <= i < |changes| && Reported(open, changes, refused, i) && changes[i].udata == c {
      RefusedIsError(r, open, changes, refused, i);
      assert Failed(changes[i], Why(refused, i)).udata == c;
    }
  }

  lemma {:induction false} ErrorCount(r: Registry, open: set<int>, changes: seq<Kevent>, refused: Refusals)
    ensures |Applied(r, open, changes, refused).1| <= |changes|
  {
    if changes == [] {
    } else {
      ErrorCount(r, open, changes[..|changes| - 1], refused);
    }
  }

  /** Nothing but registrations of the descriptor is lost, and nothing comes up. */
  ghost predicate Loses(n: Registry, m: Registry, sd: int)
  {
    && (forall k :: k in m ==> k in n && m[k] == n[k])
    && (forall k :: k in n && k.sd != sd ==> k in m)
  }

  /** Closing a descriptor drops its registrations, and what is pending for it is left to itself. */
  lemma {:induction false} NetWithout(r: Registry, changes: seq<Kevent>, sd: int)
    ensures Loses(Net(r, changes), Net(Without(r, sd), changes), sd)
  {
    if changes == [] {
    } else {
      var b, c := changes[..|changes| - 1], changes[|changes| - 1];
      NetWithout(r, b, sd);
      assert Net(r, changes) == Registered(Net(r, b), c);
      assert Net(Without(r, sd), changes) == Registered(Net(Without(r, sd), b), c);
    }
  }

  /** Changes for other keys do not matter to a key. */
  lemma {:induction false} NetOfPrefix(r: Registry, changes: seq<Kevent>, m: nat, k: Key)
    requires m <= |changes| && k !in Keys(changes[m..])
    ensures k in Net(r, changes) <==> k in Net(r, changes[..m])
    ensures k in Net(r, changes) ==> Net(r, changes)[k] == Net(r, changes[..m])[k]
  {
    if m == |changes| {
      assert changes[..m] == changes;
    } else {
      var b, c := changes[..|changes| - 1], changes[|changes| - 1];
      assert b[..m] == changes[..m];
      assert forall i :: 0 <= i < |b[m..]| ==> KeyOf(b[m..][i]) == KeyOf(changes[m..][i]);
      assert KeyOf(changes[m..][|changes| - 1 - m]) == KeyOf(c);
      NetOfPrefix(r, b, m, k);
      assert Net(r, changes) == Registered(Net(r, b), c);
    }
  }

  lemma NothingApplied(r: Registry, open: set<int>, refused: Refusals)
    ensures Applied(r, open, [], refused) == (r, [])
  {
  }

  // ---- exactly what is registered ----

  /** From change m on nothing changes the registration of k: only additions that are refused are for it. */
  ghost predicate Undisturbed(open: set<int>, changes: seq<Kevent>, refused: Refusals, k: Key, m: int)
    requires 0 <= m
  {
    forall j :: m <= j < |changes| && KeyOf(changes[j]) == k ==> Refuses(open, changes, refused, j)
  }

  /** Change i adds k for c, and is not refused. */
  predicate Adds(open: set<int>, changes: seq<Kevent>, refused: Refusals, k: Key, c: Conn, i: int)
    requires 0 <= i < |changes|
  {
    changes[i].flags.add && KeyOf(changes[i]) == k && changes[i].udata == c && !Refuses(open, changes, refused, i)
  }

  /** The last change decides for its own key and does not matter to others. */
  lemma LastChange(r: Registry, open: set<int>, changes: seq<Kevent>, refused: Refusals, k: Key, c: Conn)
    requires changes != [] && k.sd in open
    ensures var last := |changes| - 1; var x := changes[last];
      var a, b := Applied(r, open, changes, refused).0, Applied(r, open, changes[..last], refused).0;
      (k in a && a[k] == c) <==>
      if KeyOf(x) != k || Refuses(open, changes, refused, last) then k in b && b[k] == c
      else x.flags.add && x.udata == c
  {
  }

  lemma {:induction false} ClosedIsGone(r: Registry, open: set<int>, changes: seq<Kevent>, refused: Refusals, k: Key)
    requires k !in r && k.sd !in open
    ensures k !in Applied(r, open, changes, refused).0
  {
    if changes == [] {
    } else {
      ClosedIsGone(r, open, changes[..|changes| - 1], refused, k);
    }
  }

  /** c was registered for k and nothing changed that, or a change registered it and nothing after that did. */
  ghost predicate Owned(r: Registry, open: set<int>, changes: seq<Kevent>, refused: Refusals, k: Key, c: Conn)
  {
    (k in r && r[k] == c && Undisturbed(open, changes, refused, k, 0)) ||
    exists i :: 0 <= i < |changes| && Adds(open, changes, refused, k, c, i)
                && Undisturbed(open, changes, refused, k, i + 1)
  }

  lemma OwnedNext(r: Registry, open: set<int>, changes: seq<Kevent>, refused: Refusals, k: Key, c: Conn)
    requires changes != []
    ensures var last := |changes| - 1; var x := changes[last];
      Owned(r, open, changes, refused, k, c) <==>
      if KeyOf(x) != k || Refuses(open, changes, refused, last) then Owned(r, open, changes[..last], refused, k, c)
      else x.flags.add && x.udata == c
  {
    var last := |changes| - 1;
    var b := changes[..last];
    var same := KeyOf(changes[last]) != k || Refuses(open, changes, refused, last);
    forall i | 0 <= i < last
      ensures Refuses(open, b, refused, i) == Refuses(open, changes, refused, i)
      ensures Adds(open, b, refused, k, c, i) == Adds(open, changes, refused, k, c, i)
    {
    }
    forall m | 0 <= m <= last
      ensures Undisturbed(open, changes, refused, k, m) == (Undisturbed(open, b, refused, k, m) && same)
    {
      assert Undisturbed(open, changes, refused, k, m) ==> same;
    }
    assert Undisturbed(open, changes, refused, k, last + 1);
    if i :| 0 <= i < last && Adds(open, b, refused, k, c, i) && Undisturbed(open, b, refused, k, i + 1) {
      assert Undisturbed(open, changes, refused, k, i + 1) == same;
    }
    if i :| 0 <= i < last && Adds(open, changes, refused, k, c, i) && Undisturbed(open, changes, refused, k, i + 1) {
      assert Undisturbed(open, b, refused, k, i + 1);
    }
    if !same && changes[last].flags.add && changes[last].udata == c {
      assert Adds(open, changes, refused, k, c, last);
    }
  }

  /** Exactly when c, live or not, is registered for k once the list is applied. */
  lemma {:induction false} RegisteredIsExact(r: Registry, open: set<int>, changes: seq<Kevent>, refused: Refusals,
                                             k: Key, c: Conn)
    requires k in r ==> k.sd in open
    ensures var a := Applied(r, open, changes, refused).0;
      (k in a && a[k] == c) <==> k.sd in open && Owned(r, open, changes, refused, k, c)
  {
    if k.sd !in open {
      ClosedIsGone(r, open, changes, refused, k);
    } else if changes == [] {
    } else {
      hide Applied, Owned;
      LastChange(r, open, changes, refused, k, c);
      OwnedNext(r, open, changes, refused, k, c);
      RegisteredIsExact(r, open, changes[..|changes| - 1], refused, k, c);
    }
  }

  lemma KeyIn(changes: seq<Kevent>, k: Key)
    requires k in Keys(changes)
    ensures exists j :: 0 <= j < |changes| && KeyOf(changes[j]) == k
  {
  }

  lemma KeysAfter(y: Kevent, later: seq<Kevent>, k: Key)
    requires KeyOf(y) != k
    ensures k in Keys([y] + later) <==> k in Keys(later)
  {
    var all := [y] + later;
    if k in Keys(all) {
      var j :| 0 <= j < |all| && KeyOf(all[j]) == k;
      assert KeyOf(later[j - 1]) == k;
    }
    if k in Keys(later) {
      var j :| 0 <= j < |later| && KeyOf(later[j]) == k;
      assert KeyOf(all[j + 1]) == k;
    }
  }

  lemma KeyHas(changes: seq<Kevent>, j: int)
    requires 0 <= j < |changes|
    ensures KeyOf(changes[j]) in Keys(changes)
  {
  }

  /** The changes of a list name c for k nowhere. */
  ghost predicate Unnamed(changes: seq<Kevent>, k: Key, c: Conn)
  {
    forall j :: 0 <= j < |changes| && KeyOf(changes[j]) == k ==> changes[j].udata != c
  }

  /** When an addition of k for c is left in the list, c is registered for k, whatever has become of it,
      exactly if the descriptor's number is open and none of the changes after that is for k. */
  lemma AbandonedIsExact(r: Registry, open: set<int>, before: seq<Kevent>, later: seq<Kevent>, refused: Refusals,
                         k: Key, c: Conn)
    requires k in r ==> k.sd in open
    requires NotRefused(open, before + later, refused, k) && Unnamed(later, k, c)
    requires before != [] && var x := before[|before| - 1]; x.flags.add && KeyOf(x) == k && x.udata == c
    ensures var a := Applied(r, open, before + later, refused).0;
      (k in a && a[k] == c) <==> k.sd in open && k !in Keys(later)
  {
    hide Applied, Keys;
    var changes, m := before + later, |before|;
    RegisteredIsExact(r, open, changes, refused, k, c);
    assert KeyOf(changes[m - 1]) == k;
    forall i | m <= i < |changes| && KeyOf(changes[i]) == k
      ensures changes[i].udata != c
    {
      assert changes[i] == later[i - m];
    }
    if k in Keys(later) {
      KeyIn(later, k);
      var j :| 0 <= j < |later| && KeyOf(later[j]) == k;
      assert KeyOf(changes[m + j]) == k;
    } else {
      forall j | m <= j < |changes|
        ensures KeyOf(changes[j]) != k
      {
        assert changes[j] == later[j - m];
        KeyHas(later, j - m);
      }
      assert k.sd in open ==> Adds(open, changes, refused, k, c, m - 1) && Undisturbed(open, changes, refused, k, m);
    }
  }

  class EventBase {
    const nevent: nat
    const change: array<Kevent>
    const event: array<Kevent>
    var nchange: nat
    var nreturned: int
    var nprocessed: nat

    // The kernel's side: the registrations of this queue, and the open descriptors.
    ghost var regs: Registry
    ghost var open: set<int>
    // The connections that are open and not deleted, and those of them that are newer than the batch.
    ghost var live: set<Conn>
    ghost var newer: set<Conn>
    // A callback for the current event has been made.
    ghost var called: bool
    // Where the registrations, once the pending changes are applied, may not be what the flags say:
    // now, and when the batch was returned.
    ghost var astray: set<Key>
    ghost var doubt: set<Key>
    // The registrations that the batch was taken from.
    ghost var granted: Registry

    ghost predicate Bounds()
      reads this`nchange
    {
      change.Length == nevent && event.Length == nevent && change != event && nchange <= nevent
    }

    ghost predicate BatchBounds()
      reads this`nreturned
    {
      event.Length == nevent && -1 <= nreturned <= nevent
    }

    // ---- the change list ----

    ghost function Pending(): seq<Kevent>
      requires Bounds()
      reads this`nchange, change
    {
      change[..nchange]
    }

    ghost predicate Owners()
      reads this`live, this`open, live`sd
    {
      && (forall c :: c in live ==> c.sd in open && c.sd > 0)
      && (forall c, d :: c in live && d in live && c.sd == d.sd ==> c == d)
    }

    ghost predicate OnlyOpen()
      reads this`open, this`regs
    {
      forall k :: k in regs ==> k.sd in open
    }

    // Once the pending changes are applied, a connection is registered for what its flags say.
    static ghost predicate Agrees(n: Registry, conns: set<Conn>, except: set<Key>)
      reads conns
    {
      && (forall c :: c in conns && Key(c.sd, Read) !in except ==> (Key(c.sd, Read) in n <==> c.recvActive))
      && (forall c :: c in conns && Key(c.sd, Write) !in except ==> (Key(c.sd, Write) in n <==> c.sendActive))
      && (forall k :: k in n && k !in except ==> k.filter != Zero && n[k] in conns && n[k].sd == k.sd)
    }

    lemma AgreesWithout(n: Registry, c: Conn)
      requires Owners() && Agrees(n, live, astray) && c in live && !c.recvActive && !c.sendActive
      ensures Agrees(n, live - {c}, astray)
    {
    }

    // ---- the batch ----

    // The first event that a callback may still be made for.
    ghost function Next(): int
      reads this`called, this`nprocessed
    {
      if called then nprocessed + 1 else nprocessed
    }

    ghost predicate Trusted(sd: int)
      reads this`doubt
    {
      forall f :: Key(sd, f) !in doubt
    }

    ghost predicate Batch()
      requires BatchBounds()
      reads this`nreturned, this`nprocessed, this`called, this`live, this`newer, this`doubt, live`sd, event
    {
      && (called && nprocessed < nreturned ==> Delivers(event[nprocessed]))
      && (forall i :: Next() <= i < nreturned && Delivers(event[i]) && Trusted(event[i].ident) ==>
            event[i].udata in live - newer && event[i].udata.sd == event[i].ident)
      && (forall i :: nprocessed <= i < nreturned && Delivers(event[i]) && Trusted(event[i].ident) ==>
            !event[i].flags.error)
      && (forall i, j :: nprocessed <= i < j < nreturned && Delivers(event[i]) && Delivers(event[j])
                         && Trusted(event[i].ident) ==>
            event[i].ident != event[j].ident || event[i].filter != event[j].filter)
      && (forall i, j :: nprocessed <= i < j < nreturned && Delivers(event[i]) && Trusted(event[i].ident) ==>
            !event[j].flags.error)
      && (forall i, j :: nprocessed < i < j < nreturned && event[i].ident == event[j].ident && Delivers(event[j])
                         && Trusted(event[i].ident) ==>
            Delivers(event[i]) || event[i].flags.error)
    }

    // Every event that can still be delivered, unless it is an error, is of a registration that there was
    // when the batch was returned.
    ghost predicate Backed()
      requires BatchBounds()
      reads this`nreturned, this`granted, event
    {
      forall i :: 0 <= i < nreturned && Delivers(event[i]) && !event[i].flags.error ==>
        KeyOf(event[i]) in granted && granted[KeyOf(event[i])] == event[i].udata
    }

    ghost predicate Valid()
      reads this, live, change, event
    {
      && Bounds() && BatchBounds() && Owners() && OnlyOpen()
      && Agrees(Net(regs, Pending()), live, astray) && Batch() && Backed()
    }

    constructor (size: nat, idle: Conn)
      requires size > 0
      ensures Valid() && nevent == size && live == {} && newer == {} && regs == map[] && open == {}
      ensures astray == {} && doubt == {}
      ensures nchange == 0 && nreturned == 0 && nprocessed == 0 && !called
      ensures fresh(change) && fresh(event)
    {
      nevent := size;
      change := new Kevent[size](_ => Kevent(0, Zero, NONE, None, idle));
      event := new Kevent[size](_ => Kevent(0, Zero, NONE, None, idle));
      nchange, nreturned, nprocessed := 0, 0, 0;
      regs, open, live, newer, called := map[], {}, {}, {}, false;
      astray, doubt, granted := {}, {}, map[];
    }

    // One flag of c has been turned, and the change that does the same to its registration made.
    twostate lemma Turned(new c: Conn, n: Registry, new ev: Kevent)
      requires live == old(live) && c in old(live) && old(Agrees(n, live, astray)) && old(Owners())
      requires forall d :: d in live ==> d.sd == old(d.sd)
      requires forall d :: d in live && d != c ==>
        d.recvActive == old(d.recvActive) && d.sendActive == old(d.sendActive)
      requires ev.ident == c.sd && ev.udata == c && ev.filter != Zero
      requires c.recvActive == (if ev.filter == Read then ev.flags.add else old(c.recvActive))
      requires c.sendActive == (if ev.filter == Write then ev.flags.add else old(c.sendActive))
      ensures Agrees(Registered(n, ev), live, old(astray) - {KeyOf(ev)})
    {
    }

    // What an add or a delete does: nothing, or one change, which also ends what went astray there.
    twostate predicate Queued(changes: seq<Kevent>)
      requires old(Bounds()) && Bounds()
      reads this`nchange, this`astray, change
    {
      && Pending() == old(Pending()) + changes && nchange == old(nchange) + |changes|
      && astray == old(astray) - Keys(changes)
    }

    // EV_SET on the next free entry of the change list.
    method Push(ev: Kevent)
      requires Bounds() && nchange < nevent
      modifies this`nchange, this`astray, change
      ensures Bounds() && Queued([ev]) && astray == old(astray) - {KeyOf(ev)}
      ensures Net(regs, Pending()) == Registered(old(Net(regs, Pending())), ev)
    {
      change[nchange] := ev;
      nchange := nchange + 1;
      astray := astray - {KeyOf(ev)};
      assert Pending()[..nchange - 1] == old(Pending());
      KeysOfFew(ev, ev);
    }

    method AddIn(c: Conn)
      requires Valid() && c in live && nchange < nevent
      modifies this`nchange, this`astray, change, c`recvActive
      ensures Valid() && c.recvActive
      ensures Queued(if old(c.recvActive) then [] else [Kevent(c.sd, Read, ADD, None, c)])
      ensures nchange > old(nchange) ==> change[nchange - 1].flags == Flags(true, true, false, false)
    {
      hide Agrees, Owners, OnlyOpen, Batch, Backed, Keys, Net;
      if c.recvActive {
        KeysOfNone();
        return;
      }
      ghost var n := Net(regs, Pending());
      Push(Kevent(c.sd, Read, ADD, None, c));
      c.recvActive := true;
      Turned(c, n, Kevent(c.sd, Read, ADD, None, c));
    }

    method DelIn(c: Conn)
      requires Valid() && c in live && nchange < nevent
      modifies this`nchange, this`astray, change, c`recvActive
      ensures Valid() && !c.recvActive
      ensures Queued(if old(c.recvActive) then [Kevent(c.sd, Read, DELETE, None, c)] else [])
      ensures nchange > old(nchange) ==> change[nchange - 1].flags == Flags(false, false, true, false)
    {
      hide Agrees, Owners, OnlyOpen, Batch, Backed, Keys, Net;
      if !c.recvActive {
        KeysOfNone();
        return;
      }
      ghost var n := Net(regs, Pending());
      Push(Kevent(c.sd, Read, DELETE, None, c));
      c.recvActive := false;
      Turned(c, n, Kevent(c.sd, Read, DELETE, None, c));
    }

    method AddOut(c: Conn)
      requires Valid() && c in live && nchange < nevent && c.recvActive
      modifies this`nchange, this`astray, change, c`sendActive
      ensures Valid() && c.sendActive
      ensures Queued(if old(c.sendActive) then [] else [Kevent(c.sd, Write, ADD, None, c)])
      ensures nchange > old(nchange) ==> change[nchange - 1].flags == Flags(true, true, false, false)
    {
      hide Agrees, Owners, OnlyOpen, Batch, Backed, Keys, Net;
      if c.sendActive {
        KeysOfNone();
        return;
      }
      ghost var n := Net(regs, Pending());
      Push(Kevent(c.sd, Write, ADD, None, c));
      c.sendActive := true;
      Turned(c, n, Kevent(c.sd, Write, ADD, None, c));
    }

    method DelOut(c: Conn)
      requires Valid() && c in live && nchange < nevent && c.recvActive
      modifies this`nchange, this`astray, change, c`sendActive
      ensures Valid() && !c.sendActive
      ensures Queued(if old(c.sendActive) then [Kevent(c.sd, Write, DELETE, None, c)] else [])
      ensures nchange > old(nchange) ==> change[nchange - 1].flags == Flags(false, false, true, false)
    {
      hide Agrees, Owners, OnlyOpen, Batch, Backed, Keys, Net;
      if !c.sendActive {
        KeysOfNone();
        return;
      }
      ghost var n := Net(regs, Pending());
      Push(Kevent(c.sd, Write, DELETE, None, c));
      c.sendActive := false;
      Turned(c, n, Kevent(c.sd, Write, DELETE, None, c));
    }

    method AddConn(c: Conn)
      requires Valid() && c in live && !c.recvActive && !c.sendActive && nchange + 1 < nevent
      modifies this`nchange, this`astray, change, c`recvActive, c`sendActive
      ensures Valid() && c.recvActive && c.sendActive
      ensures Queued([Kevent(c.sd, Read, ADD, None, c), Kevent(c.sd, Write, ADD, None, c)])
    {
      hide Agrees, Owners, OnlyOpen, Batch, Backed, Keys, Net;
      AddIn(c);
      AddOut(c);
      KeysOfFew(Kevent(c.sd, Read, ADD, None, c), Kevent(c.sd, Write, ADD, None, c));
    }

    // ---- deleting a connection ----

    // No deliverable event of the descriptor of c is pending behind another event of it.
    ghost predicate AtMostOne(c: Conn)
      requires BatchBounds()
      reads this`nreturned, this`nprocessed, event, c`sd
    {
      forall i, j :: nprocessed < i < j < nreturned && event[i].ident == c.sd && event[j].ident == c.sd ==>
        !Delivers(event[j])
    }

    // A callback for c is still to come in this batch.
    ghost predicate Stale(c: Conn)
      requires BatchBounds()
      reads this`nreturned, this`nprocessed, event
    {
      exists i :: nprocessed < i < nreturned && Delivers(event[i]) && event[i].udata == c
    }

    ghost predicate First(sd: int, i: int)
      requires BatchBounds() && nprocessed < i < nreturned
      reads this`nreturned, this`nprocessed, event
    {
      event[i].ident == sd && forall h :: nprocessed < h < i ==> event[h].ident != sd
    }

    // A callback for c is to come for another event than the first of its descriptor.
    ghost predicate Survives(c: Conn)
      requires BatchBounds()
      reads this`nreturned, this`nprocessed, event, c`sd
    {
      exists i :: nprocessed < i < nreturned && Delivers(event[i]) && event[i].udata == c && !First(c.sd, i)
    }

    // Nothing went astray that has to do with c: neither its descriptor, nor another's event that names it.
    ghost predicate Clear(c: Conn)
      requires BatchBounds()
      reads this`nreturned, this`nprocessed, this`doubt, event, c`sd
    {
      Trusted(c.sd) &&
      forall i :: nprocessed < i < nreturned && Delivers(event[i]) && event[i].udata == c ==> event[i].ident == c.sd
    }

    // The first event after the current one whose descriptor is sd, if any, has been eliminated.
    twostate predicate FirstEliminated(sd: int)
      requires old(BatchBounds()) && BatchBounds() && nprocessed == old(nprocessed) && nreturned == old(nreturned)
      reads this`nreturned, this`nprocessed, event
    {
      && (forall i :: 0 <= i < nevent && i <= nprocessed ==> event[i] == old(event[i]))
      && (forall i :: nprocessed < i < nreturned ==>
            event[i] == if old(First(sd, i)) then old(event[i]).(flags := NONE, filter := Zero) else old(event[i]))
    }

    // Lines 230-237
    method Eliminate(sd: int)
      requires BatchBounds()
      modifies event
      ensures FirstEliminated(sd)
    {
      var i := nprocessed + 1;
      while i < nreturned
        invariant nprocessed < i
        invariant forall h :: nprocessed < h < i && h < nreturned ==> event[h].ident != sd
        invariant event[..] == old(event[..])
      {
        var ev := event[i];
        if ev.ident == sd {
          event[i] := ev.(flags := NONE, filter := Zero);
          break;
        }
        i := i + 1;
      }
    }

    // The events after Eliminate(sd) with the connection of sd gone from the live ones.
    twostate predicate Gone(c: Conn)
      reads this, live, event, c
    {
      && old(BatchBounds()) && old(Batch()) && old(Owners()) && c in old(live) && live == old(live) - {c}
      && BatchBounds() && nreturned == old(nreturned) && nprocessed == old(nprocessed) && called == old(called)
      && newer == old(newer) && doubt == old(doubt)
      && (forall d :: d in live ==> d.sd == old(d.sd)) && c.sd == old(c.sd)
      && FirstEliminated(c.sd) && (called || nprocessed >= nreturned)
    }

    twostate lemma StaleSurvives(c: Conn)
      requires Gone(c)
      ensures Stale(c) <==> old(Survives(c))
    {
      hide Batch, Backed;
    }

    // Events of other descriptors are as before.
    twostate lemma OthersKept(c: Conn, new i: int)
      requires Gone(c) && nprocessed < i < nreturned
      ensures event[i].ident == old(event[i]).ident
      ensures event[i].ident != c.sd ==> event[i] == old(event[i])
      ensures Delivers(event[i]) ==> event[i] == old(event[i])
      ensures old(AtMostOne(c)) && event[i].ident == c.sd ==> !Delivers(event[i])
    {
      hide Batch, Backed;
    }

    twostate lemma NoneLeft(c: Conn)
      requires Gone(c) && (old(AtMostOne(c)) || !Trusted(c.sd))
      ensures Batch()
    {
      forall i | nprocessed < i < nreturned
        ensures event[i].ident == old(event[i]).ident
        ensures event[i].ident != c.sd ==> event[i] == old(event[i])
        ensures Delivers(event[i]) ==> event[i] == old(event[i])
        ensures old(AtMostOne(c)) && event[i].ident == c.sd ==> !Delivers(event[i])
      {
        OthersKept(c, i);
      }
      hide AtMostOne, FirstEliminated;
    }

    twostate lemma SurvivorIsSecond(c: Conn)
      requires Gone(c) && old(Clear(c))
      ensures old(Survives(c)) <==> !old(AtMostOne(c))
    {
      if !old(AtMostOne(c)) {
        var i, j :| nprocessed < i < j < nreturned && old(event[i]).ident == c.sd && old(event[j]).ident == c.sd
                    && old(Delivers(event[j]));
        assert !old(First(c.sd, j));
      }
    }

    twostate lemma OneLeft(c: Conn)
      requires Gone(c) && Trusted(c.sd) && !old(AtMostOne(c))
      ensures !Batch()
    {
      var i, j :| nprocessed < i < j < nreturned && old(event[i]).ident == c.sd && old(event[j]).ident == c.sd
                  && old(Delivers(event[j]));
      assert !old(First(c.sd, j));
      assert event[j] == old(event[j]);
    }

    twostate lemma StillBacked(sd: int)
      requires old(BatchBounds()) && BatchBounds() && nprocessed == old(nprocessed) && nreturned == old(nreturned)
      requires old(Backed()) && granted == old(granted) && FirstEliminated(sd)
      ensures Backed()
    {
    }

    // Lines 225-237: the connection is not live any more, and neither is its next pending event.
    method Drop(c: Conn)
      requires Valid() && c in live && !c.recvActive && !c.sendActive && (called || nprocessed >= nreturned)
      modifies this`live, event
      ensures live == old(live) - {c}
      ensures BatchBounds() && FirstEliminated(c.sd) && (Stale(c) <==> old(Survives(c)))
      ensures old(Clear(c)) ==> (Stale(c) <==> !old(AtMostOne(c)))
      ensures Valid() <==> old(AtMostOne(c)) || !Trusted(c.sd)
    {
      hide Agrees, Batch, Backed, Stale, AtMostOne, Survives, Clear, Trusted;
      AgreesWithout(Net(regs, Pending()), c);
      Eliminate(c.sd);
      StillBacked(c.sd);
      live := live - {c};
      StaleSurvives(c);
      if old(Clear(c)) {
        SurvivorIsSecond(c);
      }
      if old(AtMostOne(c)) || !Trusted(c.sd) {
        NoneLeft(c);
      } else {
        OneLeft(c);
      }
    }

    // Lines 222-223
    method Mute(c: Conn)
      requires Valid() && c in live && c.recvActive && nchange + (if c.sendActive then 1 else 0) < nevent
      modifies this`nchange, this`astray, change, c`recvActive, c`sendActive
      ensures Valid() && !c.recvActive && !c.sendActive && astray <= old(astray)
    {
      hide Agrees, Owners, OnlyOpen, Batch, Backed, Keys, Net;
      DelOut(c);
      DelIn(c);
    }

    method DelConn(c: Conn)
      requires Valid() && c in live && c.recvActive && nchange + (if c.sendActive then 1 else 0) < nevent
      requires called || nprocessed >= nreturned
      modifies this`nchange, this`astray, this`live, change, event, c`recvActive, c`sendActive
      ensures live == old(live) - {c} && !c.recvActive && !c.sendActive
      ensures BatchBounds() && FirstEliminated(c.sd) && (Stale(c) <==> old(Survives(c)))
      ensures old(Clear(c)) ==> (Stale(c) <==> !old(AtMostOne(c)))
      ensures Valid() <==> old(AtMostOne(c)) || !Trusted(c.sd)
      ensures astray <= old(astray)
    {
      hide Agrees, Owners, OnlyOpen, Batch, Backed, AtMostOne, Survives, Clear, Trusted, Stale;
      ghost var one, clear, survives := AtMostOne(c), Clear(c), Survives(c);
      Mute(c);
      assert one == AtMostOne(c) && clear == Clear(c) && survives == Survives(c);
      Drop(c);
    }

    // In the callback for an event of c there is at most one other event for it: the other filter's.
    lemma CurrentHasAtMostOne(c: Conn)
      requires Valid() && called && nprocessed < nreturned && event[nprocessed].ident == c.sd && Trusted(c.sd)
      ensures AtMostOne(c)
    {
      forall i, j | nprocessed < i < j < nreturned && event[i].ident == c.sd && event[j].ident == c.sd
        ensures !Delivers(event[j])
      {
        assert Delivers(event[nprocessed]);
        assert !event[i].flags.error;
      }
    }

    lemma NothingPending(c: Conn)
      requires BatchBounds() && nprocessed >= nreturned
      ensures AtMostOne(c) && !Survives(c)
    {
    }

    // As long as no change failed, nothing is in doubt.
    lemma NoDoubtIsClear(c: Conn)
      requires Valid() && doubt == {} && (called || nprocessed >= nreturned)
      ensures Clear(c)
    {
    }

    // ---- the world around the base ----

    twostate lemma BatchGrows(c: Conn)
      requires old(BatchBounds()) && old(Batch()) && c !in old(live) && live == old(live) + {c}
      requires newer == old(newer) + {c} && doubt == old(doubt)
      requires nreturned == old(nreturned) && nprocessed == old(nprocessed) && called == old(called)
      requires event[..] == old(event[..]) && forall d :: d in old(live) ==> d.sd == old(d.sd)
      ensures Batch()
    {
      assert forall i :: 0 <= i < nevent ==> event[i] == event[..][i];
    }

    lemma AgreesGrows(n: Registry, conns: set<Conn>, except: set<Key>, c: Conn)
      requires Agrees(n, conns, except) && c !in conns && !c.recvActive && !c.sendActive
      requires forall d :: d in conns ==> d.sd != c.sd
      ensures Agrees(n, conns + {c}, except)
    {
    }

    // A descriptor from socket() or accept(), possibly one that was closed before.
    method Open(c: Conn, sd: int)
      requires Valid() && c !in live && sd > 0 && sd !in open && !c.recvActive && !c.sendActive
      modifies this`open, this`live, this`newer, c`sd
      ensures Valid() && live == old(live) + {c} && newer == old(newer) + {c} && c.sd == sd && open == old(open) + {sd}
    {
      hide Agrees, Batch, Backed;
      c.sd := sd;
      open := open + {sd};
      live := live + {c};
      newer := newer + {c};
      BatchGrows(c);
      AgreesGrows(Net(regs, Pending()), old(live), astray, c);
    }

    lemma AgreesClosed(n: Registry, m: Registry, conns: set<Conn>, except: set<Key>, sd: int)
      requires Agrees(n, conns, except) && Loses(n, m, sd) && forall c :: c in conns ==> c.sd != sd
      ensures Agrees(m, conns, except)
    {
    }

    // close(sd) of a connection that has been deleted, which drops the registrations of the descriptor.
    ghost method Close(sd: int)
      requires Valid() && sd in open && forall c :: c in live ==> c.sd != sd
      modifies this`open, this`regs
      ensures Valid() && open == old(open) - {sd} && regs == Without(old(regs), sd)
    {
      hide Agrees, Batch, Backed, Net, Loses;
      NetWithout(regs, Pending(), sd);
      AgreesClosed(Net(regs, Pending()), Net(Without(regs, sd), Pending()), live, astray, sd);
      regs := Without(regs, sd);
      open := open - {sd};
    }

    // core_close(), which the callback makes for the connection of the current event, and the
    // timeout sweep for any connection between two batches.
    method CoreClose(c: Conn)
      requires Valid() && c in live && c.recvActive && nchange + (if c.sendActive then 1 else 0) < nevent
      requires nprocessed >= nreturned || (called && event[nprocessed].ident == c.sd && Clear(c))
      modifies this`nchange, this`astray, this`live, this`open, this`regs
      modifies change, event, c`recvActive, c`sendActive
      ensures Valid() && !Stale(c)
      ensures live == old(live) - {c} && open == old(open) - {c.sd} && astray <= old(astray)
    {
      hide Agrees, OnlyOpen, Batch, Backed, AtMostOne, Stale, Survives;
      if nprocessed < nreturned {
        CurrentHasAtMostOne(c);
      } else {
        NothingPending(c);
      }
      assert forall d :: d in live - {c} ==> d.sd != c.sd;
      DelConn(c);
      Close(c.sd);
    }

    ghost function Switched(c: Conn): set<Key>
      reads c
    {
      (if c.recvActive then {Key(c.sd, Read)} else {}) + (if c.sendActive then {Key(c.sd, Write)} else {})
    }

    lemma AgreesAbandoned(n: Registry, m: Registry, c: Conn)
      requires Owners() && Agrees(n, live, astray) && c in live && Loses(n, m, c.sd)
      ensures Agrees(m, live - {c}, astray + Switched(c))
    {
    }

    twostate lemma BatchShrinks(c: Conn)
      requires old(BatchBounds()) && old(Batch()) && c in old(newer) && live == old(live) - {c}
      requires newer == old(newer) - {c} && doubt == old(doubt)
      requires nreturned == old(nreturned) && nprocessed == old(nprocessed) && called == old(called)
      requires event[..] == old(event[..]) && forall d :: d in old(live) ==> d.sd == old(d.sd)
      ensures Batch()
    {
      assert forall i :: 0 <= i < nevent ==> event[i] == event[..][i];
    }

    // close() of a connection whose connect failed, without event_del_conn: the additions queued for it
    // stay in the change list, and where they are is astray. No event of the batch is for it.
    ghost method Abandon(c: Conn)
      requires Valid() && c in live && c in newer
      modifies this`open, this`regs, this`live, this`newer, this`astray
      ensures Valid() && live == old(live) - {c} && open == old(open) - {c.sd}
      ensures astray == old(astray) + Switched(c) && regs == Without(old(regs), c.sd)
    {
      hide Agrees, Net, Batch, Backed, Loses;
      NetWithout(regs, Pending(), c.sd);
      AgreesAbandoned(Net(regs, Pending()), Net(Without(regs, c.sd), Pending()), c);
      regs := Without(regs, c.sd);
      open := open - {c.sd};
      live := live - {c};
      newer := newer - {c};
      astray := astray + Switched(c);
      BatchShrinks(c);
    }

    // Neither a registration nor a pending change is for c.
    ghost predicate Unknown(c: Conn)
      requires Bounds()
      reads this`nchange, this`regs, change
    {
      (forall k :: k in regs ==> regs[k] != c) && forall j :: 0 <= j < nchange ==> Pending()[j].udata != c
    }

    // The two additions that a failed connect leaves in the change list.
    ghost predicate Abandoned(before: seq<Kevent>, later: seq<Kevent>, c: Conn, sd: int)
      requires Bounds()
      reads this`nchange, this`regs, change
    {
      && Pending() == before + [Kevent(sd, Read, ADD, None, c), Kevent(sd, Write, ADD, None, c)] + later
      && (forall k :: k in regs ==> regs[k] != c)
      && (forall j :: 0 <= j < |before| ==> before[j].udata != c)
      && (forall j :: 0 <= j < |later| ==> later[j].udata != c)
    }

    // server_connect() when connect() fails after event_add_conn, and the server_close() after it.
    method ConnectFails(c: Conn)
      requires Valid() && c in live && c in newer && !c.recvActive && !c.sendActive && nchange + 1 < nevent
      modifies this`nchange, this`astray, this`open, this`regs, this`live, this`newer
      modifies change, c`recvActive, c`sendActive
      ensures Valid() && live == old(live) - {c} && open == old(open) - {c.sd} && regs == Without(old(regs), c.sd)
      ensures Pending() == old(Pending()) + [Kevent(c.sd, Read, ADD, None, c), Kevent(c.sd, Write, ADD, None, c)]
      ensures astray == old(astray) + {Key(c.sd, Read), Key(c.sd, Write)}
      ensures old(Unknown(c)) ==> Abandoned(old(Pending()), [], c, c.sd)
    {
      hide Agrees, Owners, OnlyOpen, Batch, Backed, Keys, Net;
      AddConn(c);
      KeysOfFew(Kevent(c.sd, Read, ADD, None, c), Kevent(c.sd, Write, ADD, None, c));
      KeysOfFew(Kevent(c.sd, Write, ADD, None, c), Kevent(c.sd, Write, ADD, None, c));
      Abandon(c);
    }

    // A descriptor that no connection owns, such as a log file.
    ghost method Take(sd: int)
      requires Valid() && sd !in open
      modifies this`open
      ensures Valid() && open == old(open) + {sd}
    {
      hide Agrees, Batch, Backed, Net;
      open := open + {sd};
    }

    // ---- event_wait ----

    // What kevent() may answer: the error events of the changes that failed, then events that are
    // ready, each of a different registration, as many as there is room for.
    ghost predicate Answer(batch: seq<Kevent>, refused: Refusals)
      requires Bounds()
      reads this, change
    {
      var (r, errors) := Applied(regs, open, Pending(), refused);
      && |errors| <= |batch| <= nevent && batch[..|errors|] == errors
      && (forall i :: |errors| <= i < |batch| ==>
            !batch[i].flags.error && KeyOf(batch[i]) in r && batch[i].udata == r[KeyOf(batch[i])])
      && (forall i, j :: |errors| <= i < j < |batch| ==> KeyOf(batch[i]) != KeyOf(batch[j]))
    }

    ghost function Errors(refused: Refusals): seq<Kevent>
      requires Bounds()
      reads this, change
    {
      Applied(regs, open, Pending(), refused).1
    }

    // As the kernels answer: when a change failed, with the errors alone.
    ghost predicate Returned(batch: seq<Kevent>, refused: Refusals)
      requires Bounds()
      reads this, change
    {
      Answer(batch, refused) && (Errors(refused) == [] || batch == Errors(refused))
    }

    // Whatever the kernel refuses, there is an answer: the errors fit.
    lemma AnswerExists(refused: Refusals) returns (batch: seq<Kevent>)
      requires Bounds()
      ensures Returned(batch, refused)
    {
      hide Applied;
      ErrorCount(regs, open, Pending(), refused);
      batch := Applied(regs, open, Pending(), refused).1;
      assert batch[..|batch|] == batch;
    }

    static ghost predicate Called(batch: seq<Kevent>, j: int, c: Conn)
      requires 0 <= j < |batch|
    {
      Delivers(batch[j]) && batch[j].udata == c
    }

    // Exactly when an answer has a callback for c, live or not: the error of an addition for it is reported,
    // or no change failed and it is registered.
    lemma CalledBackIsExact(c: Conn, refused: Refusals)
      requires Bounds() && nevent > 0
      ensures (exists batch, j :: Returned(batch, refused) && 0 <= j < |batch| && Called(batch, j, c)) <==>
        if Errors(refused) == [] then
          var a := Applied(regs, open, Pending(), refused).0; exists k :: k in a && a[k] == c && k.filter != Zero
        else
          exists i :: 0 <= i < nchange && Reported(open, Pending(), refused, i) && Pending()[i].udata == c
    {
      hide Applied;
      var a, errors := Applied(regs, open, Pending(), refused).0, Errors(refused);
      if errors == [] {
        if k :| k in a && a[k] == c && k.filter != Zero {
          var batch := [Kevent(k.sd, k.filter, NONE, None, c)];
          assert batch[..0] == [] && KeyOf(batch[0]) == k;
          assert Returned(batch, refused) && Called(batch, 0, c);
        }
        if batch, j :| Returned(batch, refused) && 0 <= j < |batch| && Called(batch, j, c) {
          assert KeyOf(batch[j]) in a;
        }
      } else {
        ErrorReaches(regs, open, Pending(), refused, c);
        if e :| e in errors && Delivers(e) && e.udata == c {
          var batch := AnswerExists(refused);
          assert batch == errors;
          var j :| 0 <= j < |errors| && errors[j] == e;
          assert Called(batch, j, c);
        }
        if batch, j :| Returned(batch, refused) && 0 <= j < |batch| && Called(batch, j, c) {
          assert batch[j] in errors;
        }
      }
    }

    lemma NothingRefused(refused: Refusals, k: Key)
      requires Bounds() && Errors(refused) == []
      ensures NotRefused(open, Pending(), refused, k)
    {
      hide Applied;
      forall i | 0 <= i < nchange
        ensures !Refuses(open, Pending(), refused, i)
      {
        if Refuses(open, Pending(), refused, i) {
          RefusedIsError(regs, open, Pending(), refused, i);
        }
      }
    }

    lemma OnlyTheTwo(before: seq<Kevent>, later: seq<Kevent>, c: Conn, sd: int, i: int)
      requires Bounds() && Abandoned(before, later, c, sd) && 0 <= i < nchange
      ensures Pending()[i].udata == c ==> i == |before| || i == |before| + 1
    {
      var m := |before|;
      assert i < m ==> Pending()[i] == before[i];
      assert i > m + 1 ==> Pending()[i] == later[i - m - 2];
    }

    // Exactly when the connection is registered for one of its filters once the list is applied, whatever else
    // in it fails: the number is open, the addition is not refused, and only refused additions come after it.
    lemma AbandonedRegistered(before: seq<Kevent>, later: seq<Kevent>, c: Conn, sd: int, refused: Refusals, i: int)
      requires Bounds() && OnlyOpen() && Abandoned(before, later, c, sd) && (i == |before| || i == |before| + 1)
      ensures var a := Applied(regs, open, Pending(), refused).0; var k := KeyOf(Pending()[i]);
        (k in a && a[k] == c) <==>
        sd in open && !Refuses(open, Pending(), refused, i) && Undisturbed(open, Pending(), refused, k, i + 1)
    {
      hide Applied, Undisturbed;
      var p, m := Pending(), |before|;
      var k := KeyOf(p[i]);
      assert p[m] == Kevent(sd, Read, ADD, None, c) && p[m + 1] == Kevent(sd, Write, ADD, None, c);
      RegisteredIsExact(regs, open, p, refused, k, c);
      forall h | 0 <= h < nchange && Adds(open, p, refused, k, c, h)
        ensures h == i
      {
        OnlyTheTwo(before, later, c, sd, h);
      }
      assert !Refuses(open, p, refused, i) <==> Adds(open, p, refused, k, c, i);
    }

    lemma AbandonedUnlessLater(before: seq<Kevent>, later: seq<Kevent>, c: Conn, sd: int, refused: Refusals)
      requires Bounds() && OnlyOpen() && Abandoned(before, later, c, sd) && Errors(refused) == []
      ensures var a := Applied(regs, open, Pending(), refused).0; var r, w := Key(sd, Read), Key(sd, Write);
        && ((r in a && a[r] == c) <==> sd in open && r !in Keys(later))
        && ((w in a && a[w] == c) <==> sd in open && w !in Keys(later))
    {
      hide Applied, Keys;
      var x, y := Kevent(sd, Read, ADD, None, c), Kevent(sd, Write, ADD, None, c);
      NothingRefused(refused, KeyOf(x));
      NothingRefused(refused, KeyOf(y));
      assert Pending() == (before + [x]) + ([y] + later) == (before + [x, y]) + later;
      AbandonedIsExact(regs, open, before + [x], [y] + later, refused, KeyOf(x), c);
      AbandonedIsExact(regs, open, before + [x, y], later, refused, KeyOf(y), c);
      KeysAfter(y, later, KeyOf(x));
    }

    lemma AbandonedOnlyThere(before: seq<Kevent>, later: seq<Kevent>, c: Conn, sd: int, refused: Refusals, k: Key)
      requires Bounds() && OnlyOpen() && Abandoned(before, later, c, sd)
      requires var a := Applied(regs, open, Pending(), refused).0; k in a && a[k] == c
      ensures k == Key(sd, Read) || k == Key(sd, Write)
    {
      hide Applied;
      RegisteredIsExact(regs, open, Pending(), refused, k, c);
      var i :| 0 <= i < nchange && Adds(open, Pending(), refused, k, c, i);
      OnlyTheTwo(before, later, c, sd, i);
    }

    // With nothing to apply, as after an answer with errors, whoever is registered can be called back.
    lemma IdleCallback(c: Conn)
      requires Bounds() && nevent > 0 && nchange == 0
      ensures (exists batch, j :: Returned(batch, map[]) && 0 <= j < |batch| && Called(batch, j, c)) <==>
              exists k :: k in regs && regs[k] == c && k.filter != Zero
    {
      CalledBackIsExact(c, map[]);
      NothingApplied(regs, open, map[]);
      assert Pending() == [];
    }

    // Exactly when a connection that a failed connect has closed is called back by the answer to the kevent()
    // that applies its additions: no change fails, the number
    // of its descriptor is open, and for one of its filters nothing came after it; or the kernel refuses one
    // of its additions for a reason that is not passed over.
    lemma AbandonedCallback(before: seq<Kevent>, later: seq<Kevent>, c: Conn, sd: int, refused: Refusals)
      requires Bounds() && OnlyOpen() && nevent > 0 && Abandoned(before, later, c, sd)
      ensures (exists batch, j :: Returned(batch, refused) && 0 <= j < |batch| && Called(batch, j, c)) <==>
        if Errors(refused) == [] then
          sd in open && !(Key(sd, Read) in Keys(later) && Key(sd, Write) in Keys(later))
        else
          Reported(open, Pending(), refused, |before|) || Reported(open, Pending(), refused, |before| + 1)
    {
      hide Applied, Keys, Returned;
      CalledBackIsExact(c, refused);
      var a := Applied(regs, open, Pending(), refused).0;
      if Errors(refused) == [] {
        AbandonedUnlessLater(before, later, c, sd, refused);
        forall k | k in a && a[k] == c
          ensures k == Key(sd, Read) || k == Key(sd, Write)
        {
          AbandonedOnlyThere(before, later, c, sd, refused, k);
        }
      } else {
        forall i | 0 <= i < nchange && Pending()[i].udata == c
          ensures i == |before| || i == |before| + 1
        {
          OnlyTheTwo(before, later, c, sd, i);
        }
        assert Pending()[|before|].udata == c && Pending()[|before| + 1].udata == c;
      }
    }

    // Where the registrations are not what the flags say once kevent() has applied the first n changes:
    // where they were not before, where an addition was refused, and where changes were not applied.
    ghost function Strays(n: nat, refused: Refusals): set<Key>
      requires Bounds() && n <= nchange
      reads this, change
    {
      set k | k in astray + RefusedKeys(open, Pending()[..n], refused) + Keys(Pending()[n..]) && k.sd in open
    }

    lemma StrayKeys(n: nat, refused: Refusals, k: Key)
      requires Bounds() && n <= nchange && k.sd in open && k !in Strays(n, refused)
      ensures k !in astray && NotRefused(open, Pending()[..n], refused, k) && k !in Keys(Pending()[n..])
    {
      forall i | 0 <= i < n && Refuses(open, Pending()[..n], refused, i)
        ensures KeyOf(Pending()[..n][i]) != k
      {
        assert KeyOf(Pending()[..n][i]) in RefusedKeys(open, Pending()[..n], refused);
      }
    }

    // Outside those places the registrations are those of the flags.
    lemma AnswerAgrees(n: nat, refused: Refusals)
      requires Bounds() && n <= nchange && Owners() && OnlyOpen() && Agrees(Net(regs, Pending()), live, astray)
      ensures var r := Applied(regs, open, Pending()[..n], refused).0;
        Agrees(r, live, Strays(n, refused)) && forall k :: k in r ==> k.sd in open
    {
      hide Strays, Net, Applied, NotRefused, Keys;
      var r, all := Applied(regs, open, Pending()[..n], refused).0, Net(regs, Pending());
      AppliedIsOpen(regs, open, Pending()[..n], refused);
      forall k: Key | k.sd in open && k !in Strays(n, refused)
        ensures k !in astray && (k in r <==> k in all) && (k in r ==> r[k] == all[k])
      {
        StrayKeys(n, refused, k);
        AppliedIsNet(regs, open, Pending()[..n], refused, k);
        NetOfPrefix(regs, Pending(), n, k);
      }
    }

    // The batch as the kernel hands it over.
    ghost predicate Handed(batch: seq<Kevent>, e: int, unsure: set<Key>)
      reads this`live, live`sd
    {
      && 0 <= e <= |batch|
      && (forall i :: 0 <= i < e ==> batch[i].flags.error && (Delivers(batch[i]) ==> KeyOf(batch[i]) in unsure))
      && (forall i :: e <= i < |batch| ==> !batch[i].flags.error)
      && (forall i :: e <= i < |batch| && KeyOf(batch[i]) !in unsure ==>
            batch[i].filter != Zero && batch[i].udata in live && batch[i].udata.sd == batch[i].ident)
      && (forall i, j :: e <= i < j < |batch| ==> KeyOf(batch[i]) != KeyOf(batch[j]))
    }

    lemma AnswerHanded(batch: seq<Kevent>, refused: Refusals) returns (e: int)
      requires Bounds() && Owners() && OnlyOpen() && Agrees(Net(regs, Pending()), live, astray)
      requires Answer(batch, refused)
      ensures Handed(batch, e, Strays(nchange, refused)) && e == |Errors(refused)|
    {
      hide Applied, Net, Delivers, RefusedKeys;
      assert Pending()[..nchange] == Pending();
      AnswerAgrees(nchange, refused);
      e := |Applied(regs, open, Pending(), refused).1|;
      forall i | 0 <= i < e
        ensures batch[i].flags.error && (Delivers(batch[i]) ==> KeyOf(batch[i]) in Strays(nchange, refused))
      {
        assert batch[i] == batch[..e][i];
        ErrorEvents(regs, open, Pending(), refused, batch[i]);
        if Delivers(batch[i]) {
          var h :| 0 <= h < nchange && Reported(open, Pending(), refused, h)
                   && batch[i] == Failed(Pending()[h], Why(refused, h));
          RefusedKey(open, Pending(), refused, h);
        }
      }
    }

    method Receive(batch: seq<Kevent>, ghost e: int, ghost strays: set<Key>)
      requires event.Length == nevent && |batch| <= nevent && Handed(batch, e, strays)
      modifies this`nreturned, this`nprocessed, this`called, this`newer, this`doubt, event
      ensures BatchBounds() && Batch() && nreturned == |batch| && event[..nreturned] == batch
      ensures !called && nprocessed == (if |batch| > 0 then 0 else old(nprocessed)) && newer == {} && doubt == strays
    {
      forall i | 0 <= i < |batch| {
        event[i] := batch[i];
      }
      nreturned := |batch|;
      called := false;
      newer := {};
      doubt := strays;
      if nreturned > 0 {
        nprocessed := 0;
      }
    }

    lemma AnswerBacked(batch: seq<Kevent>, e: int)
      requires BatchBounds() && nreturned == |batch| && event[..nreturned] == batch
      requires 0 <= e <= |batch| && forall i :: 0 <= i < e ==> batch[i].flags.error
      requires forall i :: e <= i < |batch| ==>
        KeyOf(batch[i]) in granted && batch[i].udata == granted[KeyOf(batch[i])]
      ensures Backed()
    {
      assert forall i :: 0 <= i < nreturned ==> event[i] == batch[i];
    }

    // Lines 273-277: the change list goes to the kernel and the batch comes back.
    method Flush(batch: seq<Kevent>, ghost refused: Refusals)
      requires Valid() && Answer(batch, refused)
      modifies this`nchange, this`nreturned, this`nprocessed, this`regs, this`called, this`newer
      modifies this`astray, this`doubt, this`granted, event
      ensures Valid() && nchange == 0 && nreturned == |batch| && event[..nreturned] == batch
      ensures !called && nprocessed == (if |batch| > 0 then 0 else old(nprocessed))
      ensures regs == granted == old(Applied(regs, open, Pending(), refused).0)
      ensures astray == doubt == old(Strays(nchange, refused)) && newer == {}
    {
      hide Agrees, Owners, Batch, Backed, Strays, Applied;
      assert Pending()[..nchange] == Pending();
      AnswerAgrees(nchange, refused);
      ghost var e := AnswerHanded(batch, refused);
      ghost var strays := Strays(nchange, refused);
      regs := Applied(regs, open, Pending(), refused).0;
      nchange := 0;
      astray := strays;
      assert Net(regs, Pending()) == regs;
      granted := regs;
      Receive(batch, e, strays);
      AnswerBacked(batch, e);
    }

    // Lines 273-275 when kevent() fails: the kernel may have applied only the first n changes, no event
    // comes back, and the change list is given up all the same.
    method FlushFails(ghost n: nat, ghost refused: Refusals)
      requires Valid() && n <= nchange
      modifies this`nchange, this`nreturned, this`regs, this`called, this`astray
      ensures Valid() && nchange == 0 && nreturned == -1 && !called
      ensures regs == old(Applied(regs, open, Pending()[..n], refused).0) && astray == old(Strays(n, refused))
    {
      hide Agrees, Owners, Strays, Applied;
      AnswerAgrees(n, refused);
      ghost var strays := Strays(n, refused);
      regs := Applied(regs, open, Pending()[..n], refused).0;
      nreturned := -1;
      nchange := 0;
      called := false;
      astray := strays;
      assert Net(regs, Pending()) == regs;
    }

    ghost predicate Grants(k: Key, c: Conn)
      reads this`granted
    {
      k in granted && granted[k] == c
    }

    // Lines 279-321: the call that the loop makes for the current event, if it makes one.
    method Dispatch() returns (target: Conn?, events: Mask)
      requires Valid() && !called && nprocessed < nreturned
      modifies this`called
      ensures Valid() && (called <==> target != null)
      ensures target != null && Trusted(event[nprocessed].ident) ==>
        target in live && target.sd == event[nprocessed].ident && !events.err
      ensures target != null <==> Delivers(event[nprocessed])
      ensures target != null ==> target == event[nprocessed].udata
      // A call is made unless the event is an error that is passed over, or of neither filter and no error.
      ensures var ev := event[nprocessed];
        target == null <==>
        if ev.flags.error then ev.data in {EBADF, EINVAL, ENOENT, EINTR} else ev.filter != Read && ev.filter != Write
      // It says which filter the event is of, and whether it is an error.
      ensures target != null ==>
        && events.read == (event[nprocessed].filter == Read) && events.write == (event[nprocessed].filter == Write)
        && events.err == event[nprocessed].flags.error
      // A filter is reported to a connection only if it was registered for it when the batch was returned.
      ensures target != null && !events.err ==>
        && (events.read ==> Grants(Key(event[nprocessed].ident, Read), target))
        && (events.write ==> Grants(Key(event[nprocessed].ident, Write), target))
      ensures events == Events(event[nprocessed])
    {
      hide Agrees, Owners, OnlyOpen;
      var ev := event[nprocessed];
      events := Events(ev);
      target := null;
      if events != Mask(false, false, false) {
        target := ev.udata;
        called := true;
      }
    }

    method Advance()
      requires Valid() && nprocessed < nreturned && (called || !Delivers(event[nprocessed]))
      modifies this`nprocessed, this`called
      ensures Valid() && nprocessed == old(nprocessed) + 1 && !called
    {
      hide Agrees, Owners, OnlyOpen;
      nprocessed := nprocessed + 1;
      called := false;
    }
  }

  // ---- runs that show where the conditions matter ----

  function Ready(c: Conn, sd: int, filter: Filter): Kevent
  {
    Kevent(sd, filter, ADD, None, c)
  }

  function Change(c: Conn, sd: int, filter: Filter, flags: Flags): Kevent
  {
    Kevent(sd, filter, flags, None, c)
  }

  /** One change more. */
  lemma AppliedNext(r: Registry, open: set<int>, b: seq<Kevent>, c: Kevent, refused: Refusals)
    ensures var (r', errors) := Applied(r, open, b, refused); var e := Failure(r', open, c, Why(refused, |b|));
      Applied(r, open, b + [c], refused) ==
      if e == None then (Registered(r', c), errors) else (r', errors + [Failed(c, e)])
  {
    assert (b + [c])[..|b|] == b;
  }

  function TwoAdded(c: Conn, d: Conn): seq<Kevent>
  {
    [Change(c, 5, Read, ADD), Change(c, 5, Write, ADD), Change(d, 6, Read, ADD)]
  }

  lemma TwoAddedApplied(c: Conn, d: Conn)
    ensures Applied(map[], {5, 6}, TwoAdded(c, d), map[]) ==
            (map[Key(5, Read) := c, Key(5, Write) := c, Key(6, Read) := d], [])
  {
    hide Applied;
    var s, o := TwoAdded(c, d), {5, 6};
    NothingApplied(map[], o, map[]);
    AppliedNext(map[], o, [], s[0], map[]);
    assert [] + [s[0]] == [s[0]];
    assert Applied(map[], o, [s[0]], map[]) == (map[Key(5, Read) := c], []);
    AppliedNext(map[], o, [s[0]], s[1], map[]);
    assert [s[0]] + [s[1]] == [s[0], s[1]];
    assert Applied(map[], o, [s[0], s[1]], map[]) == (map[Key(5, Read) := c, Key(5, Write) := c], []);
    AppliedNext(map[], o, [s[0], s[1]], s[2], map[]);
    assert [s[0], s[1]] + [s[2]] == s;
  }

  method OneOpened() returns (base: EventBase, c: Conn)
    ensures base.Valid() && base.nevent == 8 && !base.called && fresh(base) && fresh(base.change) && fresh(base.event)
    ensures base.open == {5} && base.regs == map[] && base.live == {c} && base.newer == {c} && fresh(c)
    ensures c.sd == 5 && !c.recvActive && !c.sendActive && base.nchange == 0 && base.astray == {}
  {
    hide EventBase.Agrees, EventBase.Owners, EventBase.OnlyOpen, EventBase.Batch, EventBase.Backed, Net;
    c := new Conn();
    base := new EventBase(8, c);
    base.Open(c, 5);
  }

  method TwoConnections() returns (base: EventBase, c: Conn, d: Conn)
    ensures base.Valid() && base.nevent == 8 && !base.called && fresh(base) && fresh(base.change) && fresh(base.event)
    ensures base.open == {5, 6} && base.regs == map[] && base.live == {c, d} && c != d && fresh(c) && fresh(d)
    ensures c.sd == 5 && c.recvActive && c.sendActive && d.sd == 6 && base.astray == {}
    ensures base.nchange == 3 && base.Pending() == TwoAdded(c, d)
  {
    hide EventBase.Agrees, EventBase.Owners, EventBase.OnlyOpen, EventBase.Batch, EventBase.Backed, Net, Keys;
    base, c := OneOpened();
    d := new Conn();
    base.Open(d, 6);
    base.AddConn(c);
    base.AddIn(d);
  }

  method TwoReady() returns (base: EventBase, c: Conn)
    ensures base.Valid() && base.called && base.nprocessed == 0 && base.nreturned == 3 && base.doubt == {}
    ensures base.nevent == 8 && base.nchange == 0 && fresh(base) && fresh(base.change) && fresh(base.event) && fresh(c)
    ensures c in base.live && c.sd == 5 && c.recvActive && c.sendActive
    ensures base.event[0].ident == 6 && base.event[1] == Ready(c, 5, Read) && base.event[2] == Ready(c, 5, Write)
  {
    hide EventBase.Agrees, EventBase.Owners, EventBase.OnlyOpen, EventBase.Batch, EventBase.Backed, TwoAdded, Applied;
    var d;
    base, c, d := TwoConnections();
    var batch := [Ready(d, 6, Read), Ready(c, 5, Read), Ready(c, 5, Write)];
    TwoAddedApplied(c, d);
    base.Flush(batch, map[]);
    assert base.doubt == {};
    var target, events := base.Dispatch();
    assert base.event[..3] == batch;
    assert base.event[0] == batch[0] && base.event[1] == batch[1] && base.event[2] == batch[2];
  }

  /** When a connection other than the current one has both its filters pending, event_del_conn
      leaves the second one in the batch, and a callback would be made for it. */
  method TwoPendingEvents() returns (base: EventBase, c: Conn)
    ensures base.BatchBounds() && base.doubt == {} && c !in base.live && base.Stale(c) && !base.Valid()
  {
    hide EventBase.Agrees, EventBase.Owners, EventBase.OnlyOpen, EventBase.Batch, EventBase.Backed;
    base, c := TwoReady();
    assert !base.AtMostOne(c);
    base.NoDoubtIsClear(c);
    base.DelConn(c);
  }

  function SwitchedTwice(c: Conn): seq<Kevent>
  {
    [Change(c, 5, Read, ADD), Change(c, 5, Write, ADD), Change(c, 5, Write, DELETE), Change(c, 5, Write, ADD)]
  }

  function TwoRefused(): Refusals
  {
    map[1 := Other, 3 := Other]
  }

  function ThreeErrors(c: Conn): seq<Kevent>
  {
    var s := SwitchedTwice(c);
    [Failed(s[1], Other), Failed(s[2], ENOENT), Failed(s[3], Other)]
  }

  lemma SwitchedTwiceApplied(c: Conn)
    ensures Applied(map[], {5}, SwitchedTwice(c), TwoRefused()) == (map[Key(5, Read) := c], ThreeErrors(c))
  {
    hide Applied;
    var s, no, r := SwitchedTwice(c), TwoRefused(), map[Key(5, Read) := c];
    NothingApplied(map[], {5}, no);
    AppliedNext(map[], {5}, [], s[0], no);
    assert [] + [s[0]] == [s[0]];
    assert Applied(map[], {5}, [s[0]], no) == (r, []);
    AppliedNext(map[], {5}, [s[0]], s[1], no);
    assert [s[0]] + [s[1]] == [s[0], s[1]] && [] + [Failed(s[1], Other)] == [Failed(s[1], Other)];
    assert Applied(map[], {5}, [s[0], s[1]], no) == (r, [Failed(s[1], Other)]);
    AppliedNext(map[], {5}, [s[0], s[1]], s[2], no);
    assert [s[0], s[1]] + [s[2]] == [s[0], s[1], s[2]];
    assert [Failed(s[1], Other)] + [Failed(s[2], ENOENT)] == [Failed(s[1], Other), Failed(s[2], ENOENT)];
    assert Applied(map[], {5}, [s[0], s[1], s[2]], no) == (r, [Failed(s[1], Other), Failed(s[2], ENOENT)]);
    AppliedNext(map[], {5}, [s[0], s[1], s[2]], s[3], no);
    assert [s[0], s[1], s[2]] + [s[3]] == s;
    assert [Failed(s[1], Other), Failed(s[2], ENOENT)] + [Failed(s[3], Other)] == ThreeErrors(c);
  }

  method SwitchedConnection() returns (base: EventBase, c: Conn)
    ensures base.Valid() && base.nevent == 8 && !base.called && fresh(base) && fresh(base.change) && fresh(base.event)
    ensures base.open == {5} && base.regs == map[] && base.live == {c} && fresh(c)
    ensures c.sd == 5 && c.recvActive && c.sendActive && base.astray == {}
    ensures base.nchange == 4 && base.Pending() == SwitchedTwice(c)
  {
    hide EventBase.Agrees, EventBase.Owners, EventBase.OnlyOpen, EventBase.Batch, EventBase.Backed, Net, Keys;
    base, c := OneOpened();
    base.AddConn(c);
    base.DelOut(c);
    base.AddOut(c);
  }

  lemma StrayWrite(base: EventBase, c: Conn)
    requires base.Bounds() && base.open == {5} && base.nchange == 4 && base.Pending() == SwitchedTwice(c)
    ensures Key(5, Write) in base.Strays(4, TwoRefused())
  {
    var p := base.Pending()[..4];
    assert p == SwitchedTwice(c);
    assert Refuses({5}, p, TwoRefused(), 1);
    RefusedKey({5}, p, TwoRefused(), 1);
  }

  method RefusedFlush() returns (base: EventBase, c: Conn)
    ensures base.Valid() && base.called && base.nprocessed == 0 && base.nreturned == 3 && c in base.live
    ensures base.nevent == 8 && base.nchange == 0 && fresh(base) && fresh(base.change) && fresh(base.event) && fresh(c)
    ensures c.sd == 5 && c.recvActive && c.sendActive && !base.Trusted(5) && base.event[..3] == ThreeErrors(c)
  {
    hide EventBase.Agrees, EventBase.Owners, EventBase.OnlyOpen, EventBase.Batch, EventBase.Backed,
         EventBase.Strays, Applied, Keys;
    base, c := SwitchedConnection();
    SwitchedTwiceApplied(c);
    StrayWrite(base, c);
    assert base.Returned(ThreeErrors(c), TwoRefused());
    base.Flush(ThreeErrors(c), TwoRefused());
    assert base.event[..3][0] == base.event[0];
    var target, events := base.Dispatch();
  }

  /** When the kernel refuses additions, the connection can be closed in its own error callback and still
      have a callback left: what is eliminated is the error of a delete that would be passed over. */
  method RefusedAddition() returns (base: EventBase, c: Conn)
    ensures base.Valid() && base.called && base.nprocessed == 0 < base.nreturned
    ensures base.event[0].ident == c.sd && Events(base.event[0]).err && c !in base.live && base.Stale(c)
  {
    hide EventBase.Agrees, EventBase.Owners, EventBase.OnlyOpen, EventBase.Batch, EventBase.Backed, EventBase.Stale,
         EventBase.Trusted;
    base, c := RefusedFlush();
    ghost var batch := base.event[..3];
    assert base.event[0] == batch[0] && base.event[1] == batch[1] && base.event[2] == batch[2];
    assert !base.First(5, 2);
    assert base.Survives(c);
    base.DelConn(c);
  }

  method NumberTaken() returns (base: EventBase, c: Conn)
    ensures base.Valid() && base.nevent == 8 && fresh(base) && fresh(base.change) && fresh(base.event)
    ensures base.open == {5} && base.regs == map[] && Key(5, Write) in base.astray && base.live == {}
    ensures base.Pending() == [Change(c, 5, Read, ADD), Change(c, 5, Write, ADD)]
  {
    hide EventBase.Agrees, EventBase.Owners, EventBase.OnlyOpen, EventBase.Batch, EventBase.Backed, Keys, Net;
    base, c := OneOpened();
    base.ConnectFails(c);
    assert base.regs == map[];
    base.Take(5);
  }

  lemma BothApplied(c: Conn)
    ensures Applied(map[], {5}, [Change(c, 5, Read, ADD), Change(c, 5, Write, ADD)], map[]) ==
            (map[Key(5, Read) := c, Key(5, Write) := c], [])
  {
    hide Applied;
    var a, b := Change(c, 5, Read, ADD), Change(c, 5, Write, ADD);
    NothingApplied(map[], {5}, map[]);
    AppliedNext(map[], {5}, [], a, map[]);
    assert [] + [a] == [a];
    assert Applied(map[], {5}, [a], map[]) == (map[Key(5, Read) := c], []);
    AppliedNext(map[], {5}, [a], b, map[]);
    assert [a] + [b] == [a, b];
  }

  /** When a connect fails and the number of its descriptor is taken before the next kevent() by one that is
      not a connection's, the additions queued for the connection are made, and it is called back. */
  method FailedConnect() returns (base: EventBase, c: Conn, target: Conn?)
    ensures base.Valid() && base.live == {} && target == c
  {
    hide EventBase.Agrees, EventBase.Owners, EventBase.OnlyOpen, EventBase.Batch, EventBase.Backed, Applied, Keys;
    base, c := NumberTaken();
    BothApplied(c);
    assert base.Returned([Ready(c, 5, Write)], map[]);
    base.Flush([Ready(c, 5, Write)], map[]);
    assert base.event[..1][0] == base.event[0];
    var events;
    target, events := base.Dispatch();
  }
}
