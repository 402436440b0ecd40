/** DeepSeek's work-conserving bus: a bounded calendar of reservations kept in two fixed arrays. */
module DeepSeekBus {

  const WINDOW: nat := 128

  datatype Slot = Slot(start: real, length: real)

  function End(s: Slot): real {
    s.start + s.length
  }

  /** Reservations in order, none empty, no two overlapping. */
  predicate Calendar(ss: seq<Slot>) {
    && (forall i :: 0 <= i < |ss| ==> 0.0 < ss[i].length)
    && (forall i, j :: 0 <= i < j < |ss| ==> End(ss[i]) <= ss[j].start)
  }

  predicate Clear(s: Slot, t: real, length: real) {
    End(s) <= t || t + length <= s.start
  }

  /** [t, t + length) overlaps no reservation. */
  predicate Free(ss: seq<Slot>, t: real, length: real) {
    forall i :: 0 <= i < |ss| ==> Clear(ss[i], t, length)
  }

  /** The single left-to-right pass of `reserve`, from reservation i on. */
  function Pass(ss: seq<Slot>, i: nat, t: real, length: real): real
    requires i <= |ss|
    decreases |ss| - i
  {
    if i == |ss| then t
    else Pass(ss, i + 1, if t < End(ss[i]) && ss[i].start < t + length then End(ss[i]) else t, length)
  }

  /** One pass finds the earliest free window: later reservations never push it back onto earlier
      ones. */
  lemma {:induction false} PassIsEarliest(ss: seq<Slot>, i: nat, t: real, length: real)
    requires Calendar(ss) && 0.0 < length && i <= |ss| && Free(ss[..i], t, length)
    ensures var r := Pass(ss, i, t, length);
            && t <= r && Free(ss, r, length)
            && (forall u: real :: t <= u && Free(ss, u, length) ==> r <= u)
    decreases |ss| - i
  {
    if i == |ss| {
      assert ss[..i] == ss;
    } else {
      var blocked := t < End(ss[i]) && ss[i].start < t + length;
      var t' := if blocked then End(ss[i]) else t;
      var front := ss[..i + 1];
      forall j | 0 <= j < |front| ensures Clear(front[j], t', length) {
        if j < i {
          assert Clear(ss[..i][j], t, length);
        }
      }
      PassIsEarliest(ss, i + 1, t', length);
      forall u: real | t <= u && Free(ss, u, length) ensures t' <= u {
        assert Clear(ss[i], u, length);
      }
    }
  }

  /** A full calendar forgets its earliest reservation. */
  function Evicted(ss: seq<Slot>): seq<Slot> {
    if |ss| == WINDOW then ss[1..] else ss
  }

  /** Where a reservation goes: after every one that starts no later. */
  function Position(ss: seq<Slot>, start: real): (p: nat)
    ensures p <= |ss|
    ensures 0 < p ==> ss[p - 1].start <= start
    ensures forall i :: p <= i < |ss| ==> start < ss[i].start
  {
    if ss == [] || ss[|ss| - 1].start <= start then |ss| else Position(ss[..|ss| - 1], start)
  }

  function Inserted(ss: seq<Slot>, s: Slot): seq<Slot> {
    ss[..Position(ss, s.start)] + [s] + ss[Position(ss, s.start)..]
  }

  /** The calendar after a reservation of a free window. */
  function Reserved(ss: seq<Slot>, s: Slot): seq<Slot> {
    Inserted(Evicted(ss), s)
  }

  /** The calendar stays ordered, disjoint and bounded, whether or not one was forgotten. */
  lemma {:induction false} ReservedIsCalendar(ss: seq<Slot>, s: Slot)
    requires Calendar(ss) && |ss| <= WINDOW && 0.0 < s.length && Free(ss, s.start, s.length)
    ensures Calendar(Reserved(ss, s)) && |Reserved(ss, s)| <= WINDOW
    ensures multiset(Reserved(ss, s)) == multiset(Evicted(ss)) + multiset{s}
  {
    EvictedFree(ss, s);
    InsertedIsCalendar(Evicted(ss), Position(Evicted(ss), s.start), s);
    InsertedMembers(Evicted(ss), s);
  }

  lemma {:induction false} EvictedFree(ss: seq<Slot>, s: Slot)
    requires Calendar(ss) && Free(ss, s.start, s.length)
    ensures Calendar(Evicted(ss)) && Free(Evicted(ss), s.start, s.length)
  {
    var e := Evicted(ss);
    forall i | 0 <= i < |e| ensures Clear(e[i], s.start, s.length) {
      var k := if |ss| == WINDOW then i + 1 else i;
      assert e[i] == ss[k];
    }
  }

  lemma {:induction false} InsertedMembers(e: seq<Slot>, s: Slot)
    ensures multiset(Inserted(e, s)) == multiset(e) + multiset{s}
  {
    var p := Position(e, s.start);
    assert e == e[..p] + e[p..];
  }

  /** Place p of a calendar is where a reservation starting at `start` belongs. */
  predicate Belongs(e: seq<Slot>, p: nat, start: real) {
    && p <= |e| && (0 < p ==> e[p - 1].start <= start)
    && forall i :: p <= i < |e| ==> start < e[i].start
  }

  lemma {:induction false} PlaceIsUnique(e: seq<Slot>, p: nat, q: nat, start: real)
    requires Belongs(e, p, start) && Belongs(e, q, start)
    ensures p == q
  {
  }

  /** Everything before the new reservation's place ends before it, everything after starts after. */
  lemma {:induction false} AroundPosition(e: seq<Slot>, p: nat, s: Slot, i: nat)
    requires Calendar(e) && 0.0 < s.length && Free(e, s.start, s.length) && i < |e| && Belongs(e, p, s.start)
    ensures if i < p then End(e[i]) <= s.start else End(s) <= e[i].start
  {
    assert Clear(e[i], s.start, s.length);
    if i + 1 < p {
      assert End(e[i]) <= e[p - 1].start;
    }
  }

  lemma {:induction false} InsertedIsCalendar(e: seq<Slot>, p: nat, s: Slot)
    requires Calendar(e) && 0.0 < s.length && Free(e, s.start, s.length) && Belongs(e, p, s.start)
    ensures Calendar(e[..p] + [s] + e[p..])
  {
    var r := e[..p] + [s] + e[p..];
    forall i, j | 0 <= i < j < |r| ensures End(r[i]) <= r[j].start {
      if i == p {
        AroundPosition(e, p, s, j - 1);
      } else if j == p {
        AroundPosition(e, p, s, i);
      }
    }
  }

  class BusCalendar {
    const slots: array<real>
    const lengths: array<real>
    var count: nat

    ghost predicate Shape()
      reads this
    {
      slots.Length == WINDOW && lengths.Length == WINDOW && slots != lengths && count <= WINDOW
    }

    ghost function Contents(): (ss: seq<Slot>)
      requires Shape()
      reads this, slots, lengths
      ensures |ss| == count
    {
      seq(count, i requires 0 <= i < count reads this, slots, lengths requires Shape() => Slot(slots[i], lengths[i]))
    }

    ghost predicate Valid()
      reads this, slots, lengths
    {
      Shape() && Calendar(Contents())
    }

    constructor ()
      ensures Valid() && Contents() == [] && fresh(slots) && fresh(lengths)
    {
      slots := new real[WINDOW];
      lengths := new real[WINDOW];
      count := 0;
    }

    /** Earliest free window at or after `ready`, taken. */
    method Reserve(ready: real, length: real) returns (t: real)
      requires Valid() && 0.0 < length
      modifies this, slots, lengths
      ensures Valid() && t == Pass(old(Contents()), 0, ready, length)
      ensures Contents() == Reserved(old(Contents()), Slot(t, length))
      ensures ready <= t && Free(old(Contents()), t, length)
      ensures forall u: real :: ready <= u && Free(old(Contents()), u, length) ==> t <= u
    {
      ghost var ss := Contents();
      t := ready;
      for i := 0 to count
        invariant Contents() == ss && Pass(ss, i, t, length) == Pass(ss, 0, ready, length)
      {
        var start := slots[i];
        assert ss[i] == Slot(start, lengths[i]);
        if t < start + lengths[i] && start < t + length {
          t := start + lengths[i];
        }
      }
      PassIsEarliest(ss, 0, ready, length);
      ReservedIsCalendar(ss, Slot(t, length));
      Insert(t, length);
    }

    method Insert(start: real, length: real)
      requires Shape()
      modifies this, slots, lengths
      ensures Shape() && Contents() == Reserved(old(Contents()), Slot(start, length))
    {
      ghost var ss := Contents();
      if count == WINDOW {
        DropEarliest();
      }
      ghost var e := Contents();
      assert e == Evicted(ss);
      var pos := MakeRoom(start);
      Put(pos, start, length, e);
    }

    /** Fill the place left free. */
    method Put(pos: nat, start: real, length: real, ghost e: seq<Slot>)
      requires Shape() && pos <= count < WINDOW && |e| == count
      requires forall i :: 0 <= i < pos ==> Slot(slots[i], lengths[i]) == e[i]
      requires forall i :: pos < i <= count ==> Slot(slots[i], lengths[i]) == e[i - 1]
      modifies this`count, slots, lengths
      ensures Shape() && Contents() == e[..pos] + [Slot(start, length)] + e[pos..]
    {
      slots[pos], lengths[pos] := start, length;
      count := count + 1;
    }

    /** Shift the reservations that start later one place up, leaving their place free. */
    method MakeRoom(start: real) returns (pos: nat)
      requires Shape() && count < WINDOW
      modifies slots, lengths
      ensures pos == Position(old(Contents()), start) && pos <= count
      ensures forall i :: 0 <= i < pos ==> Slot(slots[i], lengths[i]) == old(Contents())[i]
      ensures forall i :: pos < i <= count ==> Slot(slots[i], lengths[i]) == old(Contents())[i - 1]
    {
      ghost var e := Contents();
      pos := count;
      while 0 < pos && start < slots[pos - 1]
        invariant 0 <= pos <= count
        invariant forall i :: 0 <= i < pos ==> Slot(slots[i], lengths[i]) == e[i]
        invariant forall i :: pos < i <= count ==> Slot(slots[i], lengths[i]) == e[i - 1]
        invariant forall i :: pos <= i < count ==> start < e[i].start
      {
        slots[pos], lengths[pos] := slots[pos - 1], lengths[pos - 1];
        pos := pos - 1;
      }
      assert Belongs(e, pos, start);
      PlaceIsUnique(e, pos, Position(e, start), start);
    }

    /** Shift every reservation one place down. */
    method DropEarliest()
      requires Shape() && 0 < count
      modifies this`count, slots, lengths
      ensures Shape() && count == old(count) - 1 && Contents() == old(Contents())[1..]
    {
      ghost var ss := Contents();
      for i := 0 to count - 1
        invariant Shape() && count == |ss|
        invariant forall k :: 0 <= k < i ==> Slot(slots[k], lengths[k]) == ss[k + 1]
        invariant forall k :: i <= k < count ==> Slot(slots[k], lengths[k]) == ss[k]
      {
        slots[i], lengths[i] := slots[i + 1], lengths[i + 1];
      }
      count := count - 1;
      assert Contents() == ss[1..];
    }
  }
}
