/** When a new column command or ACT is compatible with everything booked, and the earliest
    such time. */
module OpusSlots {
  import opened OpusTypes
  import opened OpusCalendar

  /** Booked command c leaves room for a new column command at t. An activated read
      (`active`) is not held back by a row-hit read booked at or after t. */
  predicate ColClear(cfg: Config, c: Command, t: int, bg: int, write: bool, active: bool) {
    || (active && c.leaves && t <= c.t)
    || if c.t <= t then c.t + cfg.ColGap(c.write, c.bankGroup, write, bg) <= t
       else cfg.ColGap(write, bg, c.write, c.bankGroup) - cfg.Slack(write, c.write) <= c.t - t
  }

  predicate ColLegal(cfg: Config, cols: seq<Command>, t: int, bg: int, write: bool, active: bool) {
    forall i :: 0 <= i < |cols| ==> ColClear(cfg, cols[i], t, bg, write, active)
  }

  predicate ActClear(cfg: Config, c: Command, t: int, bg: int) {
    var gap := cfg.ActGap(c.bankGroup, bg);
    if c.t <= t then c.t + gap <= t else gap <= c.t - t
  }

  predicate ActLegal(cfg: Config, acts: seq<Command>, t: int, bg: int) {
    forall i :: 0 <= i < |acts| ==> ActClear(cfg, acts[i], t, bg)
  }

  ghost function ColTest(cfg: Config, cols: seq<Command>, bg: int, write: bool, active: bool): int -> bool {
    x => ColLegal(cfg, cols, x, bg, write, active)
  }

  ghost function ActTest(cfg: Config, acts: seq<Command>, bg: int): int -> bool {
    x => ActLegal(cfg, acts, x, bg)
  }

  /** The naive definition: the first legal cycle, tried one by one. */
  ghost function ColSlot(cfg: Config, cols: seq<Command>, t: int, bg: int, write: bool, active: bool): int {
    First(ColTest(cfg, cols, bg, write, active), t, ColBound(cfg, cols))
  }

  ghost function ActSlot(cfg: Config, acts: seq<Command>, t: int, bg: int): int {
    First(ActTest(cfg, acts, bg), t, ActBound(cfg, acts))
  }

  /** From these times on, nothing booked can conflict. */
  function ColBound(cfg: Config, cols: seq<Command>): int {
    Latest(cols, 0) + cfg.MaxColGap()
  }

  function ActBound(cfg: Config, acts: seq<Command>): int {
    Latest(acts, 0) + cfg.MaxActGap()
  }

  lemma {:induction false} ColLegalEventually(cfg: Config, cols: seq<Command>, bg: int, write: bool, active: bool)
    requires cfg.Ok()
    ensures forall x :: ColBound(cfg, cols) <= x ==> ColTest(cfg, cols, bg, write, active)(x)
  {
    forall x, i | ColBound(cfg, cols) <= x && 0 <= i < |cols|
      ensures ColClear(cfg, cols[i], x, bg, write, active)
    {
      GapBounds(cfg, cols[i].write, cols[i].bankGroup, write, bg);
    }
  }

  lemma {:induction false} ActLegalEventually(cfg: Config, acts: seq<Command>, bg: int)
    requires cfg.Ok()
    ensures forall x :: ActBound(cfg, acts) <= x ==> ActTest(cfg, acts, bg)(x)
  {
  }

  /** The column slot is the least time at or after t compatible with every booked command. */
  lemma {:induction false} ColSlotIsLeast(cfg: Config, cols: seq<Command>, t: int, bg: int, write: bool, active: bool)
    requires cfg.Ok()
    ensures t <= ColSlot(cfg, cols, t, bg, write, active)
    ensures ColLegal(cfg, cols, ColSlot(cfg, cols, t, bg, write, active), bg, write, active)
    ensures forall x :: t <= x < ColSlot(cfg, cols, t, bg, write, active) ==>
                          !ColLegal(cfg, cols, x, bg, write, active)
  {
    var test := ColTest(cfg, cols, bg, write, active);
    ColLegalEventually(cfg, cols, bg, write, active);
    FirstIsLeast(test, t, ColBound(cfg, cols));
    forall x | t <= x < ColSlot(cfg, cols, t, bg, write, active)
      ensures !ColLegal(cfg, cols, x, bg, write, active)
    {
      assert !test(x);
    }
  }

  /** The ACT slot is the least time at or after t compatible with every booked ACT. */
  lemma {:induction false} ActSlotIsLeast(cfg: Config, acts: seq<Command>, t: int, bg: int)
    requires cfg.Ok()
    ensures t <= ActSlot(cfg, acts, t, bg)
    ensures ActLegal(cfg, acts, ActSlot(cfg, acts, t, bg), bg)
    ensures forall x :: t <= x < ActSlot(cfg, acts, t, bg) ==> !ActLegal(cfg, acts, x, bg)
  {
    var test := ActTest(cfg, acts, bg);
    ActLegalEventually(cfg, acts, bg);
    FirstIsLeast(test, t, ActBound(cfg, acts));
    forall x | t <= x < ActSlot(cfg, acts, t, bg) ensures !ActLegal(cfg, acts, x, bg) {
      assert !test(x);
    }
  }

  /** Where a search goes after meeting booked command c. */
  function ColNext(cfg: Config, c: Command, bg: int, write: bool): int {
    c.t + cfg.ColGap(c.write, c.bankGroup, write, bg)
  }

  lemma {:induction false} ConflictLasts(cfg: Config, c: Command, t: int, x: int, bg: int, write: bool, active: bool)
    requires !ColClear(cfg, c, t, bg, write, active) && t <= x < ColNext(cfg, c, bg, write)
    ensures !ColClear(cfg, c, x, bg, write, active)
  {
  }

  /** The jump the search makes on meeting a conflicting command passes only illegal times. */
  lemma {:induction false} ColJump(cfg: Config, cols: seq<Command>, k: int, t: int, bg: int, write: bool, active: bool)
    requires cfg.Ok() && 0 <= k < |cols|
    requires !ColClear(cfg, cols[k], t, bg, write, active)
    ensures t < ColNext(cfg, cols[k], bg, write) <= ColBound(cfg, cols)
    ensures ColSlot(cfg, cols, t, bg, write, active)
            == ColSlot(cfg, cols, ColNext(cfg, cols[k], bg, write), bg, write, active)
  {
    var test := ColTest(cfg, cols, bg, write, active);
    var u := ColNext(cfg, cols[k], bg, write);
    GapBounds(cfg, cols[k].write, cols[k].bankGroup, write, bg);
    ColLegalEventually(cfg, cols, bg, write, active);
    forall x | t <= x < u ensures !test(x) {
      ConflictLasts(cfg, cols[k], t, x, bg, write, active);
    }
    FirstSkips(test, t, u, ColBound(cfg, cols));
  }

  lemma {:induction false} ActJump(cfg: Config, acts: seq<Command>, k: int, t: int, bg: int)
    requires cfg.Ok() && 0 <= k < |acts|
    requires !ActClear(cfg, acts[k], t, bg)
    ensures var u := acts[k].t + cfg.ActGap(acts[k].bankGroup, bg);
            && t < u <= ActBound(cfg, acts)
            && ActSlot(cfg, acts, t, bg) == ActSlot(cfg, acts, u, bg)
  {
    var test := ActTest(cfg, acts, bg);
    var u := acts[k].t + cfg.ActGap(acts[k].bankGroup, bg);
    ActLegalEventually(cfg, acts, bg);
    forall x | t <= x < u ensures !test(x) {
      assert !ActClear(cfg, acts[k], x, bg);
    }
    FirstSkips(test, t, u, ActBound(cfg, acts));
  }

  /** Commands outside the searched neighbourhood of t never conflict. */
  lemma {:induction false} FarColIsClear(cfg: Config, c: Command, t: int, bg: int, write: bool, active: bool)
    requires cfg.Ok()
    requires c.t < t - cfg.MaxColGap() || t + cfg.MaxColGap() <= c.t
    ensures ColClear(cfg, c, t, bg, write, active)
  {
    GapBounds(cfg, c.write, c.bankGroup, write, bg);
    GapBounds(cfg, write, bg, c.write, c.bankGroup);
  }

  /** All ACTs at least tRRD_S/L apart. */
  predicate ActsSpaced(cfg: Config, acts: seq<Command>) {
    forall i, j :: 0 <= i < j < |acts| ==>
      acts[i].t + cfg.ActGap(acts[i].bankGroup, acts[j].bankGroup) <= acts[j].t
  }

  /** All column pairs keep their directional gap, less `colSqueeze` between two reads. */
  predicate ColsSpaced(cfg: Config, cols: seq<Command>) {
    forall i, j :: 0 <= i < j < |cols| ==>
      cols[i].t + cfg.ColGap(cols[i].write, cols[i].bankGroup, cols[j].write, cols[j].bankGroup)
        - cfg.Slack(cols[i].write, cols[j].write) <= cols[j].t
  }

  lemma {:induction false} ActInsertKeepsSpacing(cfg: Config, acts: seq<Command>, c: Command)
    requires Sorted(acts) && ActsSpaced(cfg, acts) && ActLegal(cfg, acts, c.t, c.bankGroup)
    ensures ActsSpaced(cfg, Insert(acts, c))
  {
    var k := UpperIndex(acts, c.t);
    var r := Insert(acts, c);
    forall i, j | 0 <= i < j < |r|
      ensures r[i].t + cfg.ActGap(r[i].bankGroup, r[j].bankGroup) <= r[j].t
    {
      if i == k {
        assert ActClear(cfg, acts[j - 1], c.t, c.bankGroup);
      } else if j == k {
        assert ActClear(cfg, acts[i], c.t, c.bankGroup);
      }
    }
  }

  lemma {:induction false} ColInsertKeepsSpacing(cfg: Config, cols: seq<Command>, c: Command)
    requires cfg.Ok() && Sorted(cols) && ColsSpaced(cfg, cols)
    requires ColLegal(cfg, cols, c.t, c.bankGroup, c.write, false)
    ensures ColsSpaced(cfg, Insert(cols, c))
  {
    var k := UpperIndex(cols, c.t);
    var r := Insert(cols, c);
    forall i, j | 0 <= i < j < |r|
      ensures r[i].t + cfg.ColGap(r[i].write, r[i].bankGroup, r[j].write, r[j].bankGroup)
                - cfg.Slack(r[i].write, r[j].write) <= r[j].t
    {
      if i == k {
        assert ColClear(cfg, cols[j - 1], c.t, c.bankGroup, c.write, false);
      } else if j == k {
        assert ColClear(cfg, cols[i], c.t, c.bankGroup, c.write, false);
      }
    }
  }
}
