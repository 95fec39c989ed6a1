/** The list that the red-black tree stands for: entries sorted by key, where equal keys keep
    the order in which they arrived. */
module StableQueue {

  datatype Entry<T> = Entry(item: T, key: int)

  /** Puts an entry after the last one whose key is not larger, as an insert by `<` descends. */
  function Put<T>(s: seq<Entry<T>>, e: Entry<T>): (r: seq<Entry<T>>)
  {
    if s == [] then [e]
    else if e.key < s[0].key then [e] + s
    else [s[0]] + Put(s[1..], e)
  }

  /** Takes every entry of an item out, the others keeping their order. */
  function Take<T(==)>(s: seq<Entry<T>>, item: T): (r: seq<Entry<T>>)
  {
    if s == [] then []
    else if s[0].item == item then Take(s[1..], item)
    else [s[0]] + Take(s[1..], item)
  }

  lemma {:induction false} PutAt<T>(s: seq<Entry<T>>, k: nat, e: Entry<T>)
    requires k <= |s|
    requires forall i :: 0 <= i < k ==> s[i].key <= e.key
    requires forall i :: k <= i < |s| ==> e.key < s[i].key
    ensures Put(s, e) == s[..k] + [e] + s[k..]
  {
    if k == 0 {
    } else {
      PutAt(s[1..], k - 1, e);
      assert s[..k] == [s[0]] + s[1..][..k - 1];
      assert s[1..][k - 1..] == s[k..];
    }
  }

  lemma {:induction false} TakeNone<T>(s: seq<Entry<T>>, item: T)
    requires forall i :: 0 <= i < |s| ==> s[i].item != item
    ensures Take(s, item) == s
  {
    if s == [] {
    } else {
      TakeNone(s[1..], item);
    }
  }

  lemma {:induction false} TakeAt<T>(s: seq<Entry<T>>, k: nat)
    requires k < |s|
    requires forall i :: 0 <= i < |s| && i != k ==> s[i].item != s[k].item
    ensures Take(s, s[k].item) == s[..k] + s[k + 1..]
  {
    if k == 0 {
      TakeNone(s[1..], s[0].item);
    } else {
      TakeAt(s[1..], k - 1);
      assert s[..k] == [s[0]] + s[1..][..k - 1];
      assert s[1..][k..] == s[k + 1..];
    }
  }

  // ---- whole runs ----

  datatype Op<T> = Insert(item: T, key: int) | Delete(item: T)

  function Step<T(==)>(s: seq<Entry<T>>, op: Op<T>): seq<Entry<T>>
  {
    match op
    case Insert(item, key) => Put(s, Entry(item, key))
    case Delete(item) => Take(s, item)
  }

  /** What the listing holds after a run of operations on an empty tree. */
  function Run<T(==)>(ops: seq<Op<T>>): seq<Entry<T>>
  {
    if ops == [] then [] else Step(Run(ops[..|ops| - 1]), ops[|ops| - 1])
  }

  /** When the entry of an item arrived: the position of its last insert. */
  function Arrival<T(==)>(ops: seq<Op<T>>, item: T): int
  {
    if ops == [] then -1
    else
      var last := ops[|ops| - 1];
      if last.Insert? && last.item == item then |ops| - 1 else Arrival(ops[..|ops| - 1], item)
  }

  /** Every insert is of an item that is not there, which is what the tree asks of its callers. */
  ghost predicate Legal<T>(ops: seq<Op<T>>)
  {
    ops == [] ||
    (var before, last := ops[..|ops| - 1], ops[|ops| - 1];
     Legal(before) && (last.Insert? ==> forall e :: e in Run(before) ==> e.item != last.item))
  }

  /** a comes out before b: a smaller key, or the same key and an earlier arrival. */
  ghost predicate Before<T>(ops: seq<Op<T>>, a: Entry<T>, b: Entry<T>)
  {
    a.key < b.key || (a.key == b.key && Arrival(ops, a.item) < Arrival(ops, b.item))
  }

  ghost predicate InOrder<T>(ops: seq<Op<T>>, s: seq<Entry<T>>)
  {
    forall i, j :: 0 <= i < j < |s| ==> Before(ops, s[i], s[j])
  }

  lemma {:induction false} PutMembers<T>(s: seq<Entry<T>>, e: Entry<T>, x: Entry<T>)
    ensures x in Put(s, e) <==> x == e || x in s
  {
    if s == [] || e.key < s[0].key {
    } else {
      PutMembers(s[1..], e, x);
    }
  }

  lemma {:induction false} TakeMembers<T>(s: seq<Entry<T>>, item: T, x: Entry<T>)
    ensures x in Take(s, item) <==> x in s && x.item != item
  {
    if s == [] {
    } else {
      TakeMembers(s[1..], item, x);
    }
  }

  lemma {:induction false} TakeInOrder<T>(ops: seq<Op<T>>, s: seq<Entry<T>>, item: T)
    requires InOrder(ops, s)
    ensures InOrder(ops, Take(s, item))
  {
    if s == [] {
    } else {
      TakeInOrder(ops, s[1..], item);
      forall x | x in Take(s[1..], item)
        ensures Before(ops, s[0], x)
      {
        TakeMembers(s[1..], item, x);
        var i :| 0 <= i < |s[1..]| && s[1..][i] == x;
        assert x == s[i + 1];
      }
    }
  }

  lemma {:induction false} PutInOrder<T>(ops: seq<Op<T>>, s: seq<Entry<T>>, e: Entry<T>)
    requires InOrder(ops, s)
    requires forall x :: x in s ==> Arrival(ops, x.item) < Arrival(ops, e.item)
    ensures InOrder(ops, Put(s, e))
  {
    if s == [] {
    } else {
      assert forall x :: x in s[1..] ==> x in s;
      PutInOrder(ops, s[1..], e);
      if e.key < s[0].key {
        forall i | 0 <= i < |s|
          ensures Before(ops, e, s[i])
        {
          assert i > 0 ==> Before(ops, s[0], s[i]);
        }
      } else {
        forall x | x in Put(s[1..], e)
          ensures Before(ops, s[0], x)
        {
          PutMembers(s[1..], e, x);
          if x in s[1..] {
            var i :| 0 <= i < |s[1..]| && s[1..][i] == x;
            assert x == s[i + 1];
          }
        }
      }
    }
  }

  lemma {:induction false} ArrivalBound<T>(ops: seq<Op<T>>, item: T)
    ensures Arrival(ops, item) < |ops|
  {
    if ops == [] {
    } else {
      ArrivalBound(ops[..|ops| - 1], item);
    }
  }

  /** After every legal run the listing is sorted by key, and equal keys by arrival: the head,
      which is what min returns, is the earliest of the smallest. */
  lemma {:induction false} RunInOrder<T>(ops: seq<Op<T>>)
    requires Legal(ops)
    ensures InOrder(ops, Run(ops))
  {
    if ops == [] {
    } else {
      var before, last := ops[..|ops| - 1], ops[|ops| - 1];
      var s := Run(before);
      RunInOrder(before);
      forall x | x in s
        ensures Arrival(before, x.item) < |before|
      {
        ArrivalBound(before, x.item);
      }
      if last.Insert? {
        assert forall x :: x in s ==> Arrival(ops, x.item) == Arrival(before, x.item);
        assert InOrder(ops, s);
        PutInOrder(ops, s, Entry(last.item, last.key));
      } else {
        assert forall item :: Arrival(ops, item) == Arrival(before, item);
        assert InOrder(ops, s);
        TakeInOrder(ops, s, last.item);
      }
    }
  }
}
