/**
 * The database backup marker. A persisted property names which of two backup
 * directories holds the last completed copy and whether a copy is in flight:
 * "1" (copying into the first), "11" (first complete), "2" (copying into the
 * second), "22" (second complete). Every `frequency` pushed blocks a backup
 * runs and leaves the marker on a completed value.
 */
module Backup {
  import opened Wrappers

  datatype Marker = BakingOne | BakedOne | BakingTwo | BakedTwo

  /** The two backup directories. */
  datatype Target = One | Two

  /** The property value written for each marker. */
  function Render(m: Marker): (text: string)
    ensures Parse(text) == Some(m)
  {
    match m
    case BakingOne => "1"
    case BakedOne => "11"
    case BakingTwo => "2"
    case BakedTwo => "22"
  }

  /** Reads the property value back; any other text is not a marker. */
  function Parse(s: string): (m: Option<Marker>)
    ensures m.Some? <==> s in {"1", "11", "2", "22"}
  {
    if s == "1" then Some(BakingOne)
    else if s == "11" then Some(BakedOne)
    else if s == "2" then Some(BakingTwo)
    else if s == "22" then Some(BakedTwo)
    else None
  }

  /** Only a marker's own text reads back as that marker. */
  lemma ParseRender(m: Marker, s: string)
    ensures Parse(s) == Some(m) ==> s == Render(m)
  {
  }

  predicate Completed(m: Marker)
  {
    m == BakedOne || m == BakedTwo
  }

  function OtherTarget(t: Target): (other: Target)
    ensures other != t
  {
    if t == One then Two else One
  }

  /** The directory holding the most recently completed copy. */
  function LastGood(m: Marker): (t: Target)
  {
    match m
    case BakedOne => One
    case BakingTwo => One
    case BakedTwo => Two
    case BakingOne => Two
  }

  /** The directory an in-progress marker is copying into. */
  function Writing(m: Marker): (t: Target)
    requires !Completed(m)
    ensures t == OtherTarget(LastGood(m))
  {
    if m == BakingOne then One else Two
  }

  /**
   * The marker persisted before copying starts: a completed marker moves to the
   * in-progress value of the other directory, an in-progress one is kept so the
   * interrupted directory is copied again. A crash after this point still names
   * the directory with the last completed copy, and the copy never goes into it.
   */
  function Begin(m: Marker): (r: Marker)
    ensures !Completed(r)
    ensures LastGood(r) == LastGood(m)
    ensures Writing(r) != LastGood(m)
  {
    match m
    case BakedOne => BakingTwo
    case BakedTwo => BakingOne
    case BakingOne => BakingOne
    case BakingTwo => BakingTwo
  }

  /** The marker persisted once the copy has finished. */
  function Complete(m: Marker): (r: Marker)
    requires !Completed(m)
    ensures Completed(r) && LastGood(r) == Writing(m)
  {
    if m == BakingOne then BakedOne else BakedTwo
  }

  /** One successful backup. */
  function Step(m: Marker): (r: Marker)
    ensures Completed(r)
    ensures LastGood(r) == OtherTarget(LastGood(m))
  {
    Complete(Begin(m))
  }

  /** The marker after `k` successful backups. */
  function Iterate(m: Marker, k: nat): (r: Marker)
    ensures k > 0 ==> Completed(r)
  {
    if k == 0 then m else Step(Iterate(m, k - 1))
  }

  /** Completed markers alternate: an even number of backups returns to the start. */
  lemma {:induction false} IterateAlternates(m: Marker, k: nat)
    requires Completed(m)
    ensures Iterate(m, k) == if k % 2 == 0 then m else Step(m)
  {
    if k > 0 {
      IterateAlternates(m, k - 1);
    }
  }

  /** An in-progress marker completes its own directory first, then alternation takes over. */
  lemma {:induction false} IterateFromInProgress(m: Marker, k: nat)
    requires !Completed(m) && k > 0
    ensures Iterate(m, k) == if k % 2 == 1 then Complete(m) else Step(Complete(m))
  {
    if k > 1 {
      IterateFromInProgress(m, k - 1);
    }
  }

  /** A backup is due at block `height` when backups are enabled and the height is a multiple of the frequency. */
  predicate Due(enabled: bool, frequency: int, height: int)
  {
    enabled && frequency > 0 && height % frequency == 0
  }

  /** Number of due heights among `height + 1 .. height + n`. */
  function DueCount(enabled: bool, frequency: int, height: nat, n: nat): (count: nat)
    ensures count <= n
    ensures !enabled ==> count == 0
  {
    if n == 0 then 0
    else DueCount(enabled, frequency, height, n - 1) + (if Due(enabled, frequency, height + n) then 1 else 0)
  }

  lemma MulAtLeast(a: int, f: int)
    requires a >= 1 && f > 0
    ensures a * f >= f
  {
    assert a * f == (a - 1) * f + f;
  }

  lemma DivUnique(x: int, f: int, q: int, r: int)
    requires f > 0 && 0 <= r < f && x == q * f + r
    ensures x / f == q
  {
    var q', r' := x / f, x % f;
    assert (q' - q) * f == r - r';
    if q' > q {
      MulAtLeast(q' - q, f);
    } else if q' < q {
      MulAtLeast(q - q', f);
    }
  }

  /** Moving one block up raises the quotient by one exactly at a multiple of `f`. */
  lemma QuotientStep(x: int, f: int)
    requires x >= 1 && f > 0
    ensures x / f - (x - 1) / f == if x % f == 0 then 1 else 0
  {
    var q, r := x / f, x % f;
    if r == 0 {
      DivUnique(x - 1, f, q - 1, f - 1);
    } else {
      DivUnique(x - 1, f, q, r - 1);
    }
  }

  /** The number of backups over `n` blocks is the number of multiples of `frequency` passed. */
  lemma {:induction false} DueCountIsQuotientDifference(enabled: bool, frequency: int, height: nat, n: nat)
    requires enabled && frequency > 0
    ensures DueCount(enabled, frequency, height, n) == (height + n) / frequency - height / frequency
  {
    if n > 0 {
      DueCountIsQuotientDifference(enabled, frequency, height, n - 1);
      QuotientStep(height + n, frequency);
    }
  }

  /** From a multiple of the frequency, the next `frequency` blocks trigger exactly one backup. */
  lemma OneBackupPerCadence(frequency: int, height: nat)
    requires frequency > 0 && height % frequency == 0
    ensures DueCount(true, frequency, height, frequency) == 1
  {
    DueCountIsQuotientDifference(true, frequency, height, frequency);
    DivUnique(height + frequency, frequency, height / frequency + 1, 0);
  }

  /** The backup coordinator: the chain height it has seen and the persisted marker. */
  class BackupDbUtil {
    const enabled: bool
    const frequency: int
    var height: nat
    var marker: Marker

    /** Starts at the genesis height with the marker read from the property file. */
    constructor (enabled: bool, frequency: int, marker: Marker)
      ensures this.enabled == enabled && this.frequency == frequency
      ensures height == 0 && this.marker == marker
    {
      this.enabled := enabled;
      this.frequency := frequency;
      height := 0;
      this.marker := marker;
    }

    /** Overwrites the persisted property, as an operator or an interrupted run would. */
    method WriteMarker(m: Marker)
      modifies this
      ensures marker == m && height == old(height)
    {
      marker := m;
    }

    /**
     * One block is pushed; when it is due, the in-progress marker is persisted,
     * the directory is copied and, if the copy succeeded, the completed marker
     * is persisted. A failed copy leaves the in-progress marker for the next try.
     */
    method PushBlock(mirrorOk: bool) returns (fired: bool)
      modifies this
      ensures height == old(height) + 1
      ensures fired == Due(enabled, frequency, height)
      ensures marker == if !fired then old(marker) else if mirrorOk then Step(old(marker)) else Begin(old(marker))
      ensures LastGood(marker) == if fired && mirrorOk then OtherTarget(LastGood(old(marker))) else LastGood(old(marker))
    {
      height := height + 1;
      fired := Due(enabled, frequency, height);
      if fired {
        marker := Begin(marker);
        if mirrorOk {
          marker := Complete(marker);
        }
      }
    }

    /** Pushes `n` blocks whose backups all succeed. */
    method PushBlocks(n: nat)
      modifies this
      ensures height == old(height) + n
      ensures marker == Iterate(old(marker), DueCount(enabled, frequency, old(height), n))
    {
      var k := 0;
      while k < n
        invariant 0 <= k <= n
        invariant height == old(height) + k
        invariant marker == Iterate(old(marker), DueCount(enabled, frequency, old(height), k))
      {
        var _ := PushBlock(true);
        k := k + 1;
      }
    }
  }

  /**
   * One cadence of the test: pushes `frequency` blocks from a multiple of the
   * frequency, then reads back the height and the persisted marker text.
   */
  method PushCadence(util: BackupDbUtil) returns (height: nat, text: string)
    requires util.enabled && util.frequency > 0 && util.height % util.frequency == 0
    modifies util
    ensures util.height == old(util.height) + util.frequency
    ensures util.marker == Step(old(util.marker))
    ensures height == util.height && text == Render(util.marker)
  {
    util.PushBlocks(util.frequency);
    OneBackupPerCadence(util.frequency, old(util.height));
    height, text := util.height, Render(util.marker);
  }

  /**
   * The scenario of the backup unit test: five cadences of 50 blocks, the
   * marker overwritten with "11" before the first and with the in-progress
   * values "1" and "2" before the fourth and the fifth.
   */
  method TestDoBackup() returns (heights: seq<nat>, markers: seq<string>)
    ensures heights == [50, 100, 150, 200, 250]
    ensures markers == ["22", "11", "22", "11", "22"]
  {
    var util := new BackupDbUtil(true, 50, BakedOne);
    var written := Parse("11");
    util.WriteMarker(written.value);

    var h1, m1 := PushCadence(util);
    var h2, m2 := PushCadence(util);
    var h3, m3 := PushCadence(util);

    written := Parse("1");
    util.WriteMarker(written.value);
    var h4, m4 := PushCadence(util);

    written := Parse("2");
    util.WriteMarker(written.value);
    var h5, m5 := PushCadence(util);

    heights, markers := [h1, h2, h3, h4, h5], [m1, m2, m3, m4, m5];
  }
}
