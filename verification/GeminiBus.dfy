/** The Gemini model's data bus: a sorted list of bursts, directional turnarounds, and the slot a
    new burst takes. */
module GeminiBus {
  import opened Basics

  datatype Burst = Burst(depart: int, bank: nat, bg: int, write: bool)

  /** Column and turnaround spacings. */
  datatype Gaps = Gaps(ccds: int, ccdl: int, rtw: int, wtrs: int, wtrl: int) {
    predicate Positive() {
      0 < ccds && 0 < ccdl && 0 < rtw && 0 < wtrs && 0 < wtrl
    }

    function Between(prevWrite: bool, prevBg: int, write: bool, bg: int): int {
      if prevWrite == write then (if prevBg == bg then ccdl else ccds)
      else if !prevWrite then rtw
      else if prevBg == bg then wtrl else wtrs
    }

    /** Two consecutive gaps always cover the direct one. */
    predicate Cover() {
      && ccdl <= 2 * ccds && wtrl <= wtrs + ccds && wtrs <= wtrl + ccds
      && ccdl <= rtw + wtrs && ccdl <= rtw + wtrl && ccds <= rtw + wtrs && ccds <= rtw + wtrl
    }
  }

  function Gap(g: Gaps, a: Burst, b: Burst): int {
    g.Between(a.write, a.bg, b.write, b.bg)
  }

  /** Every neighbouring pair is separated by its turnaround. */
  predicate Spaced(g: Gaps, bursts: seq<Burst>) {
    forall i :: 0 <= i < |bursts| - 1 ==> bursts[i].depart + Gap(g, bursts[i], bursts[i + 1]) <= bursts[i + 1].depart
  }

  /** A burst of this kind may depart at its time without disturbing any booked one. */
  predicate Legal(g: Gaps, bursts: seq<Burst>, b: Burst) {
    forall i :: 0 <= i < |bursts| ==>
      bursts[i].depart + Gap(g, bursts[i], b) <= b.depart || b.depart + Gap(g, b, bursts[i]) <= bursts[i].depart
  }

  /** One left-to-right pass from burst i: stop at the first burst that can follow, otherwise move
      behind it. */
  function SlotFrom(g: Gaps, bursts: seq<Burst>, i: nat, b: Burst): Burst
    requires i <= |bursts|
    decreases |bursts| - i
  {
    if i == |bursts| || b.depart + Gap(g, b, bursts[i]) <= bursts[i].depart then b
    else SlotFrom(g, bursts, i + 1, b.(depart := Max(b.depart, bursts[i].depart + Gap(g, bursts[i], b))))
  }

  /** Where it stops. */
  function SlotIndex(g: Gaps, bursts: seq<Burst>, i: nat, b: Burst): (k: nat)
    requires i <= |bursts|
    ensures i <= k <= |bursts|
    decreases |bursts| - i
  {
    if i == |bursts| || b.depart + Gap(g, b, bursts[i]) <= bursts[i].depart then i
    else SlotIndex(g, bursts, i + 1, b.(depart := Max(b.depart, bursts[i].depart + Gap(g, bursts[i], b))))
  }

  /** The slot follows every burst before it and precedes the one after it by their turnarounds. */
  lemma {:induction false} SlotFits(g: Gaps, bursts: seq<Burst>, i: nat, b: Burst)
    requires i <= |bursts|
    ensures var r, k := SlotFrom(g, bursts, i, b), SlotIndex(g, bursts, i, b);
            && r == b.(depart := r.depart) && b.depart <= r.depart
            && (forall j :: i <= j < k ==> bursts[j].depart + Gap(g, bursts[j], r) <= r.depart)
            && (k < |bursts| ==> r.depart + Gap(g, r, bursts[k]) <= bursts[k].depart)
    decreases |bursts| - i
  {
    if i < |bursts| && !(b.depart + Gap(g, b, bursts[i]) <= bursts[i].depart) {
      SlotFits(g, bursts, i + 1, b.(depart := Max(b.depart, bursts[i].depart + Gap(g, bursts[i], b))));
    }
  }

  /** No time at which the burst would disturb nothing lies before the slot. */
  lemma {:induction false} SlotNeverLate(g: Gaps, bursts: seq<Burst>, i: nat, b: Burst, t: int)
    requires i <= |bursts| && b.depart <= t && Legal(g, bursts, b.(depart := t))
    ensures SlotFrom(g, bursts, i, b).depart <= t
    decreases |bursts| - i
  {
    if i < |bursts| && !(b.depart + Gap(g, b, bursts[i]) <= bursts[i].depart) {
      SlotNeverLate(g, bursts, i + 1, b.(depart := Max(b.depart, bursts[i].depart + Gap(g, bursts[i], b))), t);
    }
  }

  lemma {:induction false} CoverIsTriangle(g: Gaps)
    requires g.Positive()
    ensures g.Cover() <==>
      forall a: Burst, b: Burst, c: Burst {:trigger Gap(g, a, b), Gap(g, b, c)} ::
        Gap(g, a, c) <= Gap(g, a, b) + Gap(g, b, c)
  {
    if forall a: Burst, b: Burst, c: Burst {:trigger Gap(g, a, b), Gap(g, b, c)} ::
         Gap(g, a, c) <= Gap(g, a, b) + Gap(g, b, c) {
      var r0, r1, w0, w1 := Burst(0, 0, 0, false), Burst(0, 0, 1, false), Burst(0, 0, 0, true), Burst(0, 0, 1, true);
      assert Gap(g, r0, r0) <= Gap(g, r0, r1) + Gap(g, r1, r0);
      assert Gap(g, w0, r0) <= Gap(g, w0, r1) + Gap(g, r1, r0);
      assert Gap(g, w0, r1) <= Gap(g, w0, r0) + Gap(g, r0, r1);
      assert Gap(g, r0, r0) <= Gap(g, r0, w1) + Gap(g, w1, r0);
      assert Gap(g, r0, r0) <= Gap(g, r0, w0) + Gap(g, w0, r0);
      assert Gap(g, r0, r1) <= Gap(g, r0, w0) + Gap(g, w0, r1);
      assert Gap(g, r0, r1) <= Gap(g, r0, w1) + Gap(g, w1, r1);
    }
  }

  /** With covering gaps, neighbours far enough apart keep everyone far enough apart. */
  lemma {:induction false} NeighboursSuffice(g: Gaps, bursts: seq<Burst>, i: nat, j: nat)
    requires g.Positive() && g.Cover() && Spaced(g, bursts) && i < j < |bursts|
    ensures bursts[i].depart + Gap(g, bursts[i], bursts[j]) <= bursts[j].depart
    decreases j - i
  {
    if i + 1 < j {
      NeighboursSuffice(g, bursts, i, j - 1);
      assert Gap(g, bursts[i], bursts[j]) <= Gap(g, bursts[i], bursts[j - 1]) + Gap(g, bursts[j - 1], bursts[j]);
    }
  }

  /** With covering gaps the slot disturbs no booked burst at all. */
  lemma {:induction false} SlotLegal(g: Gaps, bursts: seq<Burst>, b: Burst)
    requires g.Positive() && g.Cover() && Spaced(g, bursts)
    ensures Legal(g, bursts, SlotFrom(g, bursts, 0, b))
  {
    SlotFits(g, bursts, 0, b);
    var r, k := SlotFrom(g, bursts, 0, b), SlotIndex(g, bursts, 0, b);
    forall i | 0 <= i < |bursts|
      ensures bursts[i].depart + Gap(g, bursts[i], r) <= r.depart || r.depart + Gap(g, r, bursts[i]) <= bursts[i].depart
    {
      if k < i {
        NeighboursSuffice(g, bursts, k, i);
        assert Gap(g, r, bursts[i]) <= Gap(g, r, bursts[k]) + Gap(g, bursts[k], bursts[i]);
      }
    }
  }

  /** The slot is the least time that disturbs nothing, for every list and burst, exactly when two
      consecutive gaps always cover the direct one. */
  lemma {:induction false} SlotIsLeastLegal(g: Gaps)
    requires g.Positive()
    ensures g.Cover() <==>
      forall bursts: seq<Burst>, b: Burst :: Spaced(g, bursts) ==> Legal(g, bursts, SlotFrom(g, bursts, 0, b))
    ensures forall bursts: seq<Burst>, b: Burst, t: int ::
      b.depart <= t && Legal(g, bursts, b.(depart := t)) ==> SlotFrom(g, bursts, 0, b).depart <= t
  {
    forall bursts: seq<Burst>, b: Burst, t: int | b.depart <= t && Legal(g, bursts, b.(depart := t))
      ensures SlotFrom(g, bursts, 0, b).depart <= t
    {
      SlotNeverLate(g, bursts, 0, b, t);
    }
    if g.Cover() {
      forall bursts: seq<Burst>, b: Burst | Spaced(g, bursts)
        ensures Legal(g, bursts, SlotFrom(g, bursts, 0, b))
      {
        SlotLegal(g, bursts, b);
      }
    } else {
      SlotDisturbs(g);
    }
  }

  /** A burst that fits ahead of its successor but not ahead of the one after that. */
  lemma {:induction false} SlotDisturbs(g: Gaps)
    requires g.Positive() && !g.Cover()
    ensures exists bursts: seq<Burst>, b: Burst :: Spaced(g, bursts) && !Legal(g, bursts, SlotFrom(g, bursts, 0, b))
  {
    CoverIsTriangle(g);
    var a, b, c :| Gap(g, a, b) + Gap(g, b, c) < Gap(g, a, c);
    var a', b', c' := a.(depart := 0), b.(depart := Gap(g, a, b)), c.(depart := Gap(g, a, b) + Gap(g, b, c));
    assert Gap(g, b', c') == Gap(g, b, c) && Gap(g, a', b') == Gap(g, a, b);
    assert SlotFrom(g, [b', c'], 0, a') == a';
    assert !Legal(g, [b', c'], a') by {
      assert c'.depart < a'.depart + Gap(g, a', c') && 0 < Gap(g, c', a');
      assert [b', c'][1] == c';
    }
    assert Spaced(g, [b', c']);
  }

  // ----- The list after a burst is scheduled -----

  /** std::upper_bound by departure. */
  function UpperIndex(bursts: seq<Burst>, v: int): (k: nat)
    ensures k <= |bursts|
    ensures forall i :: k <= i < |bursts| ==> v < bursts[i].depart
  {
    if bursts == [] then 0
    else if bursts[|bursts| - 1].depart <= v then |bursts|
    else UpperIndex(bursts[..|bursts| - 1], v)
  }

  lemma {:induction false} UpperUnique(bursts: seq<Burst>, v: int, k: nat)
    requires k <= |bursts|
    requires forall i :: 0 <= i < k ==> bursts[i].depart <= v
    requires forall i :: k <= i < |bursts| ==> v < bursts[i].depart
    ensures k == UpperIndex(bursts, v)
  {
    if k < |bursts| {
      UpperUnique(bursts[..|bursts| - 1], v, k);
    }
  }

  lemma {:induction false} SpacedSorted(g: Gaps, bursts: seq<Burst>, i: nat, j: nat)
    requires g.Positive() && Spaced(g, bursts) && i < j < |bursts|
    ensures bursts[i].depart < bursts[j].depart
    decreases j - i
  {
    if i + 1 < j {
      SpacedSorted(g, bursts, i, j - 1);
    }
  }

  function Insert(bursts: seq<Burst>, b: Burst): seq<Burst> {
    bursts[..UpperIndex(bursts, b.depart)] + [b] + bursts[UpperIndex(bursts, b.depart)..]
  }

  /** The list after scheduling a burst that may depart at b.depart or later. */
  function Scheduled(g: Gaps, bursts: seq<Burst>, b: Burst): seq<Burst> {
    Insert(bursts, SlotFrom(g, bursts, 0, b))
  }

  /** Scheduling keeps the list in order with every neighbouring pair separated. */
  lemma {:induction false} ScheduledSpaced(g: Gaps, bursts: seq<Burst>, b: Burst)
    requires g.Positive() && Spaced(g, bursts)
    ensures Spaced(g, Scheduled(g, bursts, b)) && |Scheduled(g, bursts, b)| == |bursts| + 1
  {
    SlotFits(g, bursts, 0, b);
    var r, k := SlotFrom(g, bursts, 0, b), SlotIndex(g, bursts, 0, b);
    forall i | k <= i < |bursts| ensures r.depart < bursts[i].depart {
      if k < i {
        SpacedSorted(g, bursts, k, i);
      }
    }
    UpperUnique(bursts, r.depart, k);
    var s := Scheduled(g, bursts, b);
    assert s == bursts[..k] + [r] + bursts[k..];
    forall i | 0 <= i < |s| - 1 ensures s[i].depart + Gap(g, s[i], s[i + 1]) <= s[i + 1].depart {
      if i < k - 1 {
        assert s[i] == bursts[i] && s[i + 1] == bursts[i + 1];
      } else if k < i {
        assert s[i] == bursts[i - 1] && s[i + 1] == bursts[i];
      }
    }
  }
}
