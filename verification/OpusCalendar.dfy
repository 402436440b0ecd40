/** Sorted command calendars: the library searches, insertion and stable sort they are kept by,
    and the naive "first time that passes a test" search the slot finders are measured against. */
module OpusCalendar {
  import opened Basics
  import opened OpusTypes

  predicate Sorted(cal: seq<Command>) {
    forall i, j :: 0 <= i < j < |cal| ==> cal[i].t <= cal[j].t
  }

  /** std::upper_bound: one past the last entry at or before v. */
  function UpperIndex(cal: seq<Command>, v: int): (k: nat)
    ensures k <= |cal|
    ensures forall i :: k <= i < |cal| ==> v < cal[i].t
    ensures Sorted(cal) ==> forall i :: 0 <= i < k ==> cal[i].t <= v
  {
    if cal == [] then 0
    else if cal[|cal| - 1].t <= v then |cal|
    else UpperIndex(cal[..|cal| - 1], v)
  }

  /** std::lower_bound: one past the last entry before v. */
  function LowerIndex(cal: seq<Command>, v: int): (k: nat)
    ensures k <= |cal|
    ensures forall i :: k <= i < |cal| ==> v <= cal[i].t
    ensures Sorted(cal) ==> forall i :: 0 <= i < k ==> cal[i].t < v
  {
    if cal == [] then 0
    else if cal[|cal| - 1].t < v then |cal|
    else LowerIndex(cal[..|cal| - 1], v)
  }

  lemma {:induction false} UpperUnique(cal: seq<Command>, v: int, k: nat)
    requires k <= |cal|
    requires forall i :: 0 <= i < k ==> cal[i].t <= v
    requires forall i :: k <= i < |cal| ==> v < cal[i].t
    ensures k == UpperIndex(cal, v)
  {
    if k < |cal| {
      UpperUnique(cal[..|cal| - 1], v, k);
    }
  }

  lemma {:induction false} LowerUnique(cal: seq<Command>, v: int, k: nat)
    requires k <= |cal|
    requires forall i :: 0 <= i < k ==> cal[i].t < v
    requires forall i :: k <= i < |cal| ==> v <= cal[i].t
    ensures k == LowerIndex(cal, v)
  {
    if k < |cal| {
      LowerUnique(cal[..|cal| - 1], v, k);
    }
  }

  function InsertAt(cal: seq<Command>, k: nat, c: Command): seq<Command>
    requires k <= |cal|
  {
    cal[..k] + [c] + cal[k..]
  }

  function Insert(cal: seq<Command>, c: Command): seq<Command> {
    InsertAt(cal, UpperIndex(cal, c.t), c)
  }

  /** std::stable_sort by time: entries are inserted after their equals, in order. */
  function StableSort(cal: seq<Command>): seq<Command> {
    if cal == [] then [] else Insert(StableSort(cal[..|cal| - 1]), cal[|cal| - 1])
  }

  lemma {:induction false} InsertMembers(cal: seq<Command>, k: nat, c: Command)
    requires k <= |cal|
    ensures multiset(InsertAt(cal, k, c)) == multiset(cal) + multiset{c}
    ensures forall x :: x in InsertAt(cal, k, c) <==> x in cal || x == c
  {
    assert cal == cal[..k] + cal[k..];
  }

  lemma {:induction false} InsertSorted(cal: seq<Command>, c: Command)
    requires Sorted(cal)
    ensures Sorted(Insert(cal, c))
  {
  }

  lemma {:induction false} StableSortSorts(cal: seq<Command>)
    ensures Sorted(StableSort(cal))
    ensures multiset(StableSort(cal)) == multiset(cal)
    ensures forall c :: c in StableSort(cal) <==> c in cal
  {
    if cal != [] {
      var front, last := cal[..|cal| - 1], cal[|cal| - 1];
      hide Sorted, UpperIndex, InsertAt;
      StableSortSorts(front);
      InsertSorted(StableSort(front), last);
      InsertMembers(StableSort(front), UpperIndex(StableSort(front), last.t), last);
      assert cal == front + [last];
    }
  }

  /** Sorting a calendar that is already in order changes nothing. */
  lemma {:induction false} StableSortIdentity(cal: seq<Command>)
    requires Sorted(cal)
    ensures StableSort(cal) == cal
  {
    if cal != [] {
      var front, last := cal[..|cal| - 1], cal[|cal| - 1];
      StableSortIdentity(front);
      assert UpperIndex(front, last.t) == |front|;
      assert cal == front + [last];
    }
  }

  /** What identifies a command apart from its time. */
  function Key(c: Command): (int, bool, int, bool) {
    (c.bankGroup, c.write, c.bank, c.leaves)
  }

  function Keys(cal: seq<Command>): (ks: seq<(int, bool, int, bool)>)
    ensures |ks| == |cal|
    ensures forall i :: 0 <= i < |cal| ==> ks[i] == Key(cal[i])
  {
    seq(|cal|, i requires 0 <= i < |cal| => Key(cal[i]))
  }

  lemma {:induction false} KeysInsert(cal: seq<Command>, k: nat, c: Command)
    requires k <= |cal|
    ensures multiset(Keys(InsertAt(cal, k, c))) == multiset(Keys(cal)) + multiset{Key(c)}
  {
    assert Keys(InsertAt(cal, k, c)) == Keys(cal)[..k] + [Key(c)] + Keys(cal)[k..];
    assert Keys(cal) == Keys(cal)[..k] + Keys(cal)[k..];
  }

  lemma {:induction false} StableSortKeepsKeys(cal: seq<Command>)
    ensures multiset(Keys(StableSort(cal))) == multiset(Keys(cal))
  {
    if cal != [] {
      hide Keys, UpperIndex;
      var front, last := cal[..|cal| - 1], cal[|cal| - 1];
      StableSortKeepsKeys(front);
      KeysInsert(StableSort(front), UpperIndex(StableSort(front), last.t), last);
      KeysInsert(front, |front|, last);
      assert cal == InsertAt(front, |front|, last);
    }
  }

  /** The latest entry of a calendar, at least `floor`. */
  function Latest(cal: seq<Command>, floor: int): (m: int)
    ensures floor <= m
    ensures forall i :: 0 <= i < |cal| ==> cal[i].t <= m
  {
    if cal == [] then floor else Max(Latest(cal[..|cal| - 1], floor), cal[|cal| - 1].t)
  }

  /** Try t, t+1, ... and take the first time that passes; give up at `bound`. */
  ghost function First(legal: int -> bool, t: int, bound: int): int
    decreases bound - t
  {
    if legal(t) || bound <= t then t else First(legal, t + 1, bound)
  }

  lemma {:induction false} FirstIsLeast(legal: int -> bool, t: int, bound: int)
    requires forall x :: bound <= x ==> legal(x)
    ensures t <= First(legal, t, bound)
    ensures legal(First(legal, t, bound))
    ensures forall x :: t <= x < First(legal, t, bound) ==> !legal(x)
    decreases bound - t
  {
    if !legal(t) && t < bound {
      FirstIsLeast(legal, t + 1, bound);
    }
  }

  /** A stretch of failing times can be jumped over. */
  lemma {:induction false} FirstSkips(legal: int -> bool, t: int, u: int, bound: int)
    requires t <= u
    requires forall x :: bound <= x ==> legal(x)
    requires forall x :: t <= x < u ==> !legal(x)
    ensures First(legal, t, bound) == First(legal, u, bound)
    decreases u - t
  {
    if t < u {
      assert !legal(t);
      assert t < bound;
      FirstSkips(legal, t + 1, u, bound);
    }
  }
}
