/**
 * The non-DB client of the SONiC data client (sonic_data_client/non_db_client.go):
 * the ring of /proc/stat samples that a background poller fills every
 * 100 ms, the CPU utilisation computed from it over five windows, the
 * stash of the SONiC version file, and the client that maps OTHERS paths
 * to data getters.
 *
 * Counters are uint64 in the source; they are `nat`s here and every
 * operation that can wrap is reduced modulo 2^64 explicitly.
 */
module SdcNonDbClient {
  import opened Wrappers
  import opened Gnmi
  import opened SonicProto
  import SdcPath
  import VdbPath
  import GoStrings

  /** statsRingCap: the number of samples the ring keeps. */
  const Cap: nat := 3000

  /** The uint64 modulus. */
  const U64: nat := 0x1_0000_0000_0000_0000

  const IndexPanic := "index out of range"
  const DividePanic := "integer divide by zero"
  const NilPanic := "invalid memory address or nil pointer dereference"

  /** linuxproc.CPUStat: the jiffies counters of one CPU line of /proc/stat. */
  datatype CpuCounters = CpuCounters(id: string, user: nat, nice: nat, system: nat, idle: nat, iowait: nat,
                                     irq: nat, softirq: nat, steal: nat, guest: nat, guestNice: nat)

  /** linuxproc.Stat, as far as it is read here: the aggregate line and the per-CPU lines. */
  datatype Stat = Stat(all: CpuCounters, cpus: seq<CpuCounters>)

  /** The exact sum of the ten counters. */
  function Sum(c: CpuCounters): nat
  {
    c.user + c.nice + c.system + c.idle + c.iowait + c.irq + c.softirq + c.steal + c.guest + c.guestNice
  }

  /** The counters never went back between the two samples. */
  predicate Monotone(cur: CpuCounters, last: CpuCounters)
  {
    && last.user <= cur.user && last.nice <= cur.nice && last.system <= cur.system && last.idle <= cur.idle
    && last.iowait <= cur.iowait && last.irq <= cur.irq && last.softirq <= cur.softirq
    && last.steal <= cur.steal && last.guest <= cur.guest && last.guestNice <= cur.guestNice
  }

  /**
   * getCpuUtilPercents: 100 * (Δtotal - Δidle) / Δtotal, every step in
   * uint64 arithmetic.  None stands for the division-by-zero panic when
   * the total did not move.
   */
  function Percent(cur: CpuCounters, last: CpuCounters): Option<nat>
  {
    var curTotal := Wrap(Sum(cur));
    var lastTotal := Wrap(Sum(last));
    var idleTicks := Wrap(cur.idle - last.idle);
    var totalTicks := Wrap(curTotal - lastTotal);
    if totalTicks == 0 then None
    else Some(Quotient(Wrap(100 * Wrap(totalTicks - idleTicks)), totalTicks))
  }

  /**
   * Go's unsigned division, as repeated subtraction.  For these non-negative
   * operands it is Dafny's `/`; spelled out, its bounds below are proved by
   * induction instead of being left to the solver's non-linear arithmetic.
   */
  function Quotient(a: nat, c: nat): nat
    requires c > 0
    decreases a
  {
    if a < c then 0 else 1 + Quotient(a - c, c)
  }

  /** Quotient is the truncating division of Go: the largest `q` with `q * c <= a`. */
  lemma {:induction false} QuotientBounds(a: nat, c: nat)
    requires c > 0
    ensures Quotient(a, c) * c <= a < Quotient(a, c) * c + c
    decreases a
  {
    if a >= c {
      QuotientBounds(a - c, c);
      var q := Quotient(a - c, c);
      assert (1 + q) * c == q * c + c;
    }
  }

  /** A dividend of at most `b` times the divisor gives a quotient of at most `b`. */
  lemma {:induction false} QuotientAtMost(a: nat, b: nat, c: nat)
    requires c > 0 && a <= b * c
    ensures Quotient(a, c) <= b
    decreases a
  {
    if a >= c {
      assert a - c <= (b - 1) * c;
      QuotientAtMost(a - c, b - 1, c);
    }
  }

  /** A uint64 result: the exact value reduced modulo 2^64. */
  function Wrap(x: int): nat
  {
    x % U64
  }

  lemma WrapSmall(x: int)
    requires 0 <= x < U64
    ensures Wrap(x) == x
  {
  }

  /**
   * Without wrap-around the formula is the busy share of the elapsed
   * ticks, in whole percent, so it never exceeds 100.
   */
  lemma PercentOfBusyTicks(cur: CpuCounters, last: CpuCounters)
    requires Monotone(cur, last) && Sum(cur) < U64
    requires Sum(last) < Sum(cur) && 100 * (Sum(cur) - Sum(last)) < U64
    ensures var busy := 100 * ((Sum(cur) - Sum(last)) - (cur.idle - last.idle));
      && Percent(cur, last).Some?
      && Percent(cur, last).value * (Sum(cur) - Sum(last)) <= busy
      && busy < (Percent(cur, last).value + 1) * (Sum(cur) - Sum(last))
    ensures Percent(cur, last).value <= 100
  {
    var dt := Sum(cur) - Sum(last);
    var di := cur.idle - last.idle;
    assert 0 <= di <= dt;
    WrapSmall(Sum(cur));
    WrapSmall(Sum(last));
    WrapSmall(dt);
    WrapSmall(di);
    WrapSmall(dt - di);
    WrapSmall(100 * (dt - di));
    assert Percent(cur, last) == Some(Quotient(100 * (dt - di), dt));
    PercentQuotient(100 * (dt - di), dt);
  }

  /** A share of at most 100 times the divisor, divided: the whole percent, at most 100. */
  lemma PercentQuotient(a: nat, c: nat)
    requires 0 < c && a <= 100 * c
    ensures Quotient(a, c) * c <= a < (Quotient(a, c) + 1) * c
    ensures Quotient(a, c) <= 100
  {
    QuotientBounds(a, c);
    var q := Quotient(a, c);
    assert (q + 1) * c == q * c + c;
    QuotientAtMost(a, 100, c);
  }

  /** Without wrap-around the division panics exactly when no tick elapsed. */
  lemma PercentNeedsTicks(cur: CpuCounters, last: CpuCounters)
    requires Monotone(cur, last) && Sum(cur) < U64
    ensures Percent(cur, last).None? <==> Sum(cur) == Sum(last)
  {
    assert Sum(last) <= Sum(cur);
    WrapSmall(Sum(cur));
    WrapSmall(Sum(last));
    WrapSmall(Sum(cur) - Sum(last));
  }

  /**
   * The ring index `k` samples back from `w`, computed as the source does:
   * (w + statsRingCap - k) in uint64, then modulo the capacity.
   */
  function Slot(w: nat, k: nat): (s: nat)
    ensures s < Cap
  {
    ((w + Cap - k) % U64) % Cap
  }

  /** Offsets up to the capacity do not wrap: slot `k` is `k` places behind `w` on the ring. */
  lemma SlotNoWrap(w: nat, k: nat)
    requires w < Cap && k <= Cap
    ensures Slot(w, k) == (w + Cap - k) % Cap
  {
  }

  /** The sample written `k` writes ago (1 = the latest), when there was one. */
  function Back(h: seq<Stat>, k: nat): Option<Stat>
  {
    if 1 <= k <= |h| then Some(h[|h| - k]) else None
  }

  /**
   * The ring holds the history: slot `k` places behind the write index
   * holds the `k`-th latest sample, and is empty while fewer than `k`
   * samples have been written.
   */
  ghost predicate RingHolds(b: seq<Option<Stat>>, w: nat, h: seq<Stat>)
  {
    && |b| == Cap && w < Cap
    && forall k :: 1 <= k <= Cap ==> b[(w + Cap - k) % Cap] == Back(h, k)
  }

  /** The slot `k` places behind the write index holds the sample written `k` writes ago. */
  lemma RingAt(b: seq<Option<Stat>>, w: nat, h: seq<Stat>, k: nat)
    requires RingHolds(b, w, h) && 1 <= k <= Cap
    ensures b[Slot(w, k)] == Back(h, k)
  {
    SlotNoWrap(w, k);
    assert b[(w + Cap - k) % Cap] == Back(h, k);
  }

  /** The slots getCpuUtilStat reads hold the latest sample and the five window samples. */
  lemma RingWindows(b: seq<Option<Stat>>, w: nat, h: seq<Stat>)
    requires RingHolds(b, w, h)
    ensures b[Slot(w, 1)] == Back(h, 1)
    ensures b[Slot(w, 2)] == Windows(h)[0] && b[Slot(w, 10)] == Windows(h)[1] && b[Slot(w, 50)] == Windows(h)[2]
    ensures b[Slot(w, 600)] == Windows(h)[3] && b[Slot(w, 3000)] == Windows(h)[4]
  {
    forall k | k in {1, 2, 10, 50, 600, 3000} ensures b[Slot(w, k)] == Back(h, k) {
      RingAt(b, w, h, k);
    }
  }

  /** After one more write, `k` places behind the new index is `k - 1` behind the old one. */
  lemma SlotAfterWrite(w: nat, k: nat)
    requires w < Cap && 2 <= k <= Cap
    ensures ((w + 1) % Cap + Cap - k) % Cap == (w + Cap - (k - 1)) % Cap
    ensures (w + Cap - (k - 1)) % Cap != w
  {
  }

  /** The 100 ms, 1 s, 5 s, 1 min and 5 min windows, in samples. */
  const Offsets: seq<nat> := [2, 10, 50, 600, 3000]

  /** The 5-minute offset as the source writes it. */
  const FiveMinOffsetAsWritten: nat := 30000

  /** The samples the five windows compare the latest sample with. */
  function Windows(h: seq<Stat>): (ws: seq<Option<Stat>>)
    ensures |ws| == |Offsets|
    ensures forall j :: 0 <= j < |Offsets| ==> ws[j] == Back(h, Offsets[j])
  {
    [Back(h, 2), Back(h, 10), Back(h, 50), Back(h, 600), Back(h, 3000)]
  }

  /** cpuUtil: the utilisation of one CPU over the five windows. */
  datatype CpuUtil = CpuUtil(id: string, util100ms: nat, util1s: nat, util5s: nat, util1min: nat, util5min: nat)

  /** cpuStat: the aggregate and the per-CPU utilisation. */
  datatype CpuStat = CpuStat(all: CpuUtil, cpus: seq<CpuUtil>)

  /** An entry with only an id. */
  function Fresh(id: string): CpuUtil
  {
    CpuUtil(id, 0, 0, 0, 0, 0)
  }

  /** The zero value `cpuStat{}`. */
  const EmptyStat := CpuStat(Fresh(""), [])

  /** The rate of window `j`. */
  function Rate(u: CpuUtil, j: nat): nat
    requires j < |Offsets|
  {
    [u.util100ms, u.util1s, u.util5s, u.util1min, u.util5min][j]
  }

  /** `u` with the rate of window `j` set to `v`. */
  function WithRate(u: CpuUtil, j: nat, v: nat): (r: CpuUtil)
    requires j < |Offsets|
    ensures r.id == u.id && Rate(r, j) == v
    ensures forall t :: 0 <= t < |Offsets| && t != j ==> Rate(r, t) == Rate(u, t)
  {
    if j == 0 then u.(util100ms := v)
    else if j == 1 then u.(util1s := v)
    else if j == 2 then u.(util5s := v)
    else if j == 3 then u.(util1min := v)
    else u.(util5min := v)
  }

  /**
   * The per-CPU loop of window `j` from CPU `i` on: the latest sample's
   * CPU `i` against the window sample's; the first window appends an entry
   * named after the window sample's CPU, the later ones set their rate in
   * the entry at the same index.
   */
  function CpuRates(cpus: seq<CpuUtil>, cur: seq<CpuCounters>, last: seq<CpuCounters>, i: nat, j: nat)
    : (r: Result<seq<CpuUtil>>)
    requires i <= |last| && j < |Offsets|
    ensures !r.Err?
    decreases |last| - i
  {
    if i == |last| then Ok(cpus)
    else if i >= |cur| then Panic(IndexPanic)
    else
      var p := Percent(cur[i], last[i]);
      if p.None? then Panic(DividePanic)
      else if j == 0 then CpuRates(cpus + [WithRate(Fresh(last[i].id), 0, p.value)], cur, last, i + 1, j)
      else if i >= |cpus| then Panic(IndexPanic)
      else CpuRates(cpus[i := WithRate(cpus[i], j, p.value)], cur, last, i + 1, j)
  }

  /** Window `j` against the sample `last`: the aggregate rate, then the per-CPU rates. */
  function WindowUtil(stat: CpuStat, cur: Stat, last: Stat, j: nat): (r: Result<CpuStat>)
    requires j < |Offsets|
    ensures !r.Err?
  {
    var p := Percent(cur.all, last.all);
    if p.None? then Panic(DividePanic)
    else
      var all := WithRate(if j == 0 then stat.all.(id := cur.all.id) else stat.all, j, p.value);
      var cpus := CpuRates(stat.cpus, cur.cpus, last.cpus, 0, j);
      if cpus.Ok? then Ok(CpuStat(all, cpus.value)) else Panic(cpus.reason)
  }

  /** The windows from `j` on, stopping with the stat so far at the first empty slot. */
  function UtilFrom(stat: CpuStat, cur: Stat, lasts: seq<Option<Stat>>, j: nat): (r: Result<CpuStat>)
    requires j + |lasts| <= |Offsets|
    ensures !r.Err?
    decreases |lasts|
  {
    if lasts == [] || lasts[0].None? then Ok(stat)
    else
      var s := WindowUtil(stat, cur, lasts[0].value, j);
      if s.Ok? then UtilFrom(s.value, cur, lasts[1..], j + 1) else s
  }

  /**
   * getCpuUtilStat over the latest sample `current` and the window samples
   * `lasts`: without a 100 ms sample the empty stat; a missing latest
   * sample is a nil dereference.
   */
  function UtilStat(current: Option<Stat>, lasts: seq<Option<Stat>>): (r: Result<CpuStat>)
    requires |lasts| == |Offsets|
    ensures !r.Err?
  {
    if lasts[0].None? then Ok(EmptyStat)
    else if current.None? then Panic(NilPanic)
    else UtilFrom(EmptyStat, current.value, lasts, 0)
  }

  /**
   * `r` is `cpus` followed by one entry per CPU `t` of `last` from `i` on,
   * named after it and carrying its 100 ms rate.
   */
  ghost predicate Appended(cpus: seq<CpuUtil>, r: seq<CpuUtil>, cur: seq<CpuCounters>, last: seq<CpuCounters>, i: nat)
  {
    && i <= |last| && (i < |last| ==> |last| <= |cur|)
    && |r| == |cpus| + |last| - i && r[..|cpus|] == cpus
    && forall t {:trigger last[t]} :: i <= t < |last| ==> FreshRate(r[|cpus| + t - i], cur[t], last[t])
  }

  /** `u` is the new entry of the CPU counted by `last`, carrying its 100 ms rate. */
  ghost predicate FreshRate(u: CpuUtil, cur: CpuCounters, last: CpuCounters)
  {
    Percent(cur, last).Some? && u == WithRate(Fresh(last.id), 0, Percent(cur, last).value)
  }

  /** The first window appends one entry per CPU of the window sample. */
  lemma {:induction false} FirstWindowAppends(cpus: seq<CpuUtil>, cur: seq<CpuCounters>, last: seq<CpuCounters>, i: nat)
    requires i <= |last|
    requires CpuRates(cpus, cur, last, i, 0).Ok?
    ensures Appended(cpus, CpuRates(cpus, cur, last, i, 0).value, cur, last, i)
    decreases |last| - i
  {
    if i < |last| {
      var p := Percent(cur[i], last[i]);
      assert i < |cur| && p.Some?;
      var next := cpus + [WithRate(Fresh(last[i].id), 0, p.value)];
      assert CpuRates(cpus, cur, last, i, 0) == CpuRates(next, cur, last, i + 1, 0);
      FirstWindowAppends(next, cur, last, i + 1);
      var r := CpuRates(next, cur, last, i + 1, 0).value;
      AppendedStep(cpus, next, r, cur, last, i);
    }
  }

  lemma {:induction false} AppendedStep(cpus: seq<CpuUtil>, next: seq<CpuUtil>, r: seq<CpuUtil>, cur: seq<CpuCounters>,
                     last: seq<CpuCounters>, i: nat)
    requires i < |last| && i < |cur| && Percent(cur[i], last[i]).Some?
    requires next == cpus + [WithRate(Fresh(last[i].id), 0, Percent(cur[i], last[i]).value)]
    requires Appended(next, r, cur, last, i + 1)
    ensures Appended(cpus, r, cur, last, i)
  {
    assert |next| == |cpus| + 1 && |r| == |cpus| + |last| - i;
    assert r[..|cpus|] == r[..|next|][..|cpus|] == next[..|cpus|] == cpus;
    assert |last| <= |cur|;
    forall t {:trigger last[t]} | i <= t < |last|
      ensures FreshRate(r[|cpus| + t - i], cur[t], last[t])
    {
      if t == i {
        assert r[|cpus| + t - i] == r[..|next|][|cpus|] == next[|cpus|];
        assert FreshRate(next[|cpus|], cur[i], last[i]);
      } else {
        assert FreshRate(r[|next| + t - (i + 1)], cur[t], last[t]);
        assert |cpus| + t - i == |next| + t - (i + 1);
      }
    }
  }

  /**
   * A later window sets its rate in the entries of the CPUs the window
   * sample has, and changes nothing else.
   */
  lemma {:induction false} LaterWindowSets(cpus: seq<CpuUtil>, cur: seq<CpuCounters>, last: seq<CpuCounters>, i: nat, j: nat)
    requires i <= |last| && 0 < j < |Offsets|
    requires CpuRates(cpus, cur, last, i, j).Ok?
    ensures var r := CpuRates(cpus, cur, last, i, j).value;
      && |r| == |cpus| && (i < |last| ==> |last| <= |cpus|)
      && forall t :: 0 <= t < |cpus| ==>
           if i <= t < |last| then t < |cur| && Percent(cur[t], last[t]).Some?
                                   && r[t] == WithRate(cpus[t], j, Percent(cur[t], last[t]).value)
           else r[t] == cpus[t]
    decreases |last| - i
  {
    if i < |last| {
      var p := Percent(cur[i], last[i]);
      LaterWindowSets(cpus[i := WithRate(cpus[i], j, p.value)], cur, last, i + 1, j);
    }
  }

  /**
   * The per-CPU loop panics exactly when, for some CPU of the window
   * sample, the latest sample has no CPU at that index, the CPU's ticks
   * did not move, or (after the first window) the stat has no entry at
   * that index.
   */
  lemma {:induction false} CpuRatesPanics(cpus: seq<CpuUtil>, cur: seq<CpuCounters>, last: seq<CpuCounters>, i: nat, j: nat)
    requires i <= |last| && j < |Offsets|
    ensures CpuRates(cpus, cur, last, i, j).Panic? <==> exists t :: i <= t < |last| && Breaks(cpus, cur, last, t, j)
    decreases |last| - i
  {
    if i < |last| && !Breaks(cpus, cur, last, i, j) {
      var p := Percent(cur[i], last[i]).value;
      var next := if j == 0 then cpus + [WithRate(Fresh(last[i].id), 0, p)] else cpus[i := WithRate(cpus[i], j, p)];
      CpuRatesPanics(next, cur, last, i + 1, j);
      assert forall t :: i + 1 <= t < |last| ==> (Breaks(next, cur, last, t, j) <==> Breaks(cpus, cur, last, t, j));
    }
  }

  /** CPU `t` of the window sample stops the loop of window `j` with a panic. */
  predicate Breaks(cpus: seq<CpuUtil>, cur: seq<CpuCounters>, last: seq<CpuCounters>, t: nat, j: nat)
    requires t < |last|
  {
    t >= |cur| || Percent(cur[t], last[t]).None? || (j > 0 && t >= |cpus|)
  }

  /**
   * The stat is returned as soon as a window's slot is empty: windows past
   * it are never read.
   */
  lemma {:induction false} StopsAtEmptyWindow(stat: CpuStat, cur: Stat, lasts: seq<Option<Stat>>,
                                               others: seq<Option<Stat>>, j: nat, t: nat)
    requires j + |lasts| <= |Offsets| && |others| == |lasts|
    requires t < |lasts| && lasts[t].None? && lasts[..t + 1] == others[..t + 1]
    ensures UtilFrom(stat, cur, lasts, j) == UtilFrom(stat, cur, others, j)
    decreases t
  {
    assert lasts[0] == lasts[..t + 1][0] == others[..t + 1][0] == others[0];
    if t > 0 && lasts[0].Some? {
      var s := WindowUtil(stat, cur, lasts[0].value, j);
      if s.Ok? {
        assert lasts[1..][..t] == lasts[..t + 1][1..] == others[..t + 1][1..] == others[1..][..t];
        StopsAtEmptyWindow(s.value, cur, lasts[1..], others[1..], j + 1, t - 1);
      }
    }
  }

  /**
   * The /proc/stat ring.  `history` is every sample written so far, which
   * the ring does not keep beyond its capacity.
   */
  class StatsRing {
    /** The slot to write next. */
    var writeIdx: nat
    const buff: array<Option<Stat>>
    ghost var history: seq<Stat>

    ghost predicate Valid()
      reads this, buff
    {
      RingHolds(buff[..], writeIdx, history)
    }

    /** Package initialisation: statsRingCap empty slots. */
    constructor ()
      ensures Valid() && writeIdx == 0 && history == []
      ensures fresh(buff) && forall s :: 0 <= s < buff.Length ==> buff[s].None?
    {
      writeIdx := 0;
      buff := new Option<Stat>[Cap](_ => None);
      history := [];
    }

    /** One round of pollStats: store the sample at writeIdx, then advance it modulo the capacity. */
    method Store(s: Stat)
      requires Valid()
      modifies this, buff
      ensures Valid() && history == old(history) + [s]
      ensures writeIdx == (old(writeIdx) + 1) % Cap && writeIdx < Cap
      ensures buff[..] == old(buff[..])[old(writeIdx) := Some(s)]
    {
      ghost var b := buff[..];
      ghost var w := writeIdx;
      buff[writeIdx] := Some(s);
      writeIdx := writeIdx + 1;
      writeIdx := writeIdx % Cap;
      history := history + [s];
      forall k | 1 <= k <= Cap ensures buff[..][(writeIdx + Cap - k) % Cap] == Back(history, k) {
        if k == 1 {
          assert (writeIdx + Cap - k) % Cap == w;
        } else {
          SlotAfterWrite(w, k);
          assert b[(w + Cap - (k - 1)) % Cap] == Back(old(history), k - 1);
        }
      }
    }

    /**
     * getCpuUtilStat with the five windows as intended: each window compares
     * the latest sample with the one written that many samples before it.
     */
    method GetCpuUtilStat() returns (r: Result<CpuStat>)
      requires Valid()
      ensures r == UtilStat(Back(history, 1), Windows(history))
    {
      RingAt(buff[..], writeIdx, history, 1);
      RingAt(buff[..], writeIdx, history, 2);
      var current := Slot(writeIdx, 1);
      var last := Slot(writeIdx, 2);
      if buff[last].None? {
        return Ok(EmptyStat);
      }
      if buff[current].None? {
        return Panic(NilPanic);
      }
      r := AllWindows(buff[current].value);
    }

    /** The five window blocks of getCpuUtilStat, from the latest sample `cur`. */
    method AllWindows(cur: Stat) returns (r: Result<CpuStat>)
      requires Valid()
      ensures r == UtilFrom(EmptyStat, cur, Windows(history), 0)
    {
      ghost var ws := Windows(history);
      assert ws[0..] == ws;
      var stop;
      r, stop := NextWindow(EmptyStat, cur, 0);
      if stop {
        return;
      }
      ghost var target := UtilFrom(r.value, cur, ws[1..], 1);
      r, stop := NextWindow(r.value, cur, 1);
      if stop {
        return;
      }
      assert target == UtilFrom(r.value, cur, ws[2..], 2);
      r, stop := NextWindow(r.value, cur, 2);
      if stop {
        return;
      }
      assert target == UtilFrom(r.value, cur, ws[3..], 3);
      r, stop := NextWindow(r.value, cur, 3);
      if stop {
        return;
      }
      assert target == UtilFrom(r.value, cur, ws[4..], 4);
      r, stop := NextWindow(r.value, cur, 4);
    }

    /**
     * One window block of getCpuUtilStat: an empty slot ends the
     * computation with the stat so far, otherwise the window's rates are
     * filled in; `stop` says the computation ends here.
     */
    method NextWindow(stat: CpuStat, cur: Stat, j: nat) returns (r: Result<CpuStat>, stop: bool)
      requires Valid() && j < |Offsets|
      ensures stop || j == |Offsets| - 1 ==> r == UtilFrom(stat, cur, Windows(history)[j..], j)
      ensures !stop ==> r.Ok? && UtilFrom(stat, cur, Windows(history)[j..], j) == UtilFrom(r.value, cur, Windows(history)[j + 1..], j + 1)
    {
      ghost var rest := Windows(history)[j..];
      RingAt(buff[..], writeIdx, history, Offsets[j]);
      var last := Slot(writeIdx, Offsets[j]);
      if buff[last].None? {
        return Ok(stat), true;
      }
      WindowStep(stat, cur, rest, j);
      assert rest[1..] == Windows(history)[j + 1..];
      r := FillWindow(stat, cur, buff[last].value, j);
      stop := !r.Ok?;
    }
  }

  /** Before the second sample the 100 ms slot is empty, so the stat stays empty. */
  lemma UtilStatNeedsTwoSamples(h: seq<Stat>)
    requires |h| < 2
    ensures UtilStat(Back(h, 1), Windows(h)) == Ok(EmptyStat)
  {
  }

  /** One window of UtilFrom: the window's result, then the windows after it. */
  lemma WindowStep(stat: CpuStat, cur: Stat, lasts: seq<Option<Stat>>, j: nat)
    requires j + |lasts| <= |Offsets| && lasts != [] && lasts[0].Some?
    ensures UtilFrom(stat, cur, lasts, j) ==
      var s := WindowUtil(stat, cur, lasts[0].value, j);
      if s.Ok? then UtilFrom(s.value, cur, lasts[1..], j + 1) else s
    ensures lasts[1..] == [] ==> UtilFrom(stat, cur, lasts, j) == WindowUtil(stat, cur, lasts[0].value, j)
  {
  }

  /** One window of getCpuUtilStat: the aggregate rate, then the loop over the window sample's CPUs. */
  method FillWindow(stat: CpuStat, cur: Stat, last: Stat, j: nat) returns (r: Result<CpuStat>)
    requires j < |Offsets|
    ensures r == WindowUtil(stat, cur, last, j)
  {
    var p := Percent(cur.all, last.all);
    if p.None? {
      return Panic(DividePanic);
    }
    var all := if j == 0 then stat.all.(id := cur.all.id) else stat.all;
    all := WithRate(all, j, p.value);
    var cpus := stat.cpus;
    for i := 0 to |last.cpus|
      invariant CpuRates(stat.cpus, cur.cpus, last.cpus, 0, j) == CpuRates(cpus, cur.cpus, last.cpus, i, j)
    {
      if i >= |cur.cpus| {
        return Panic(IndexPanic);
      }
      var q := Percent(cur.cpus[i], last.cpus[i]);
      if q.None? {
        return Panic(DividePanic);
      }
      if j == 0 {
        cpus := cpus + [WithRate(Fresh(last.cpus[i].id), 0, q.value)];
      } else {
        if i >= |cpus| {
          return Panic(IndexPanic);
        }
        cpus := cpus[i := WithRate(cpus[i], j, q.value)];
      }
    }
    return Ok(CpuStat(all, cpus));
  }

  /**
   * The 5-minute slot as written: 30000 exceeds the capacity, the uint64
   * subtraction wraps (2^64 mod 3000 = 616), and the slot read is the one
   * 2384 places behind the write index instead of 3000.
   */
  lemma FiveMinuteSlotAsWritten(w: nat)
    requires w < Cap
    ensures Slot(w, FiveMinOffsetAsWritten) == (w + 616) % Cap == Slot(w, 2384)
  {
    var x := w + Cap - FiveMinOffsetAsWritten;
    assert x < 0;
    assert x % U64 == x + U64;
    assert U64 - 27000 == 616 + Cap * 6148914691236508;
  }

  /**
   * On a ring holding its history, the slot as written yields the sample
   * 2383 intervals before the latest (about 238 s) where the comment's
   * 5 minutes needs the one 2999 intervals before it; with the write index
   * at 0 the two slots are 616 and 0.
   */
  lemma FiveMinuteSampleAsWritten(b: seq<Option<Stat>>, w: nat, h: seq<Stat>)
    requires RingHolds(b, w, h)
    ensures b[Slot(w, FiveMinOffsetAsWritten)] == Back(h, 2384)
    ensures |h| >= 3000 ==> b[Slot(w, Offsets[4])] == Some(h[|h| - 3000]) && b[Slot(w, FiveMinOffsetAsWritten)] == Some(h[|h| - 2384])
    ensures Slot(0, FiveMinOffsetAsWritten) == 616 && Slot(0, Offsets[4]) == 0
  {
    FiveMinuteSlotAsWritten(w);
    FiveMinuteSlotAsWritten(0);
    SlotNoWrap(0, 3000);
    RingAt(b, w, h, 2384);
    RingAt(b, w, h, 3000);
  }

  /* The version file stash */

  /** SonicVersionInfo: the build version and the error met while loading it. */
  datatype VersionInfo = VersionInfo(buildVersion: string, error: string)

  /** What reading the version file gives: its content or the error's message. */
  datatype FileRead = Content(text: string) | ReadError(msg: string)

  /** What YAML decoding gives: the build_version entry, if the file has one, or the error's message. */
  datatype Parsed = Parsed(buildVersion: Option<string>) | ParseError(msg: string)

  const NotAvailable := "sonic.NA"

  /**
   * The loading function run once by getBuildVersion: the build version
   * starts as sonic.NA; a read or decode failure records its message;
   * otherwise the decoded version gets the `sonic.` prefix unless it is
   * still sonic.NA.
   */
  function LoadVersion(file: FileRead, parse: string -> Parsed): VersionInfo
  {
    match file
    case ReadError(m) => VersionInfo(NotAvailable, m)
    case Content(text) =>
      match parse(text)
      case ParseError(m) => VersionInfo(NotAvailable, m)
      case Parsed(b) =>
        var v := if b.Some? then b.value else NotAvailable;
        VersionInfo(if v != NotAvailable then "sonic." + v else v, "")
  }

  /**
   * Every outcome of loading names a `sonic.` build; a failure is sonic.NA
   * with the failure's message, a success has no error.
   */
  lemma {:induction false} VersionOutcomes(file: FileRead, parse: string -> Parsed)
    ensures GoStrings.HasPrefix(LoadVersion(file, parse).buildVersion, "sonic.")
    ensures file.ReadError? ==> LoadVersion(file, parse) == VersionInfo(NotAvailable, file.msg)
    ensures file.Content? && parse(file.text).ParseError? ==>
      LoadVersion(file, parse) == VersionInfo(NotAvailable, parse(file.text).msg)
    ensures file.Content? && parse(file.text).Parsed? ==>
      var b := parse(file.text).buildVersion;
      && LoadVersion(file, parse).error == ""
      && (b.Some? && b.value != NotAvailable ==> LoadVersion(file, parse).buildVersion == "sonic." + b.value)
      && (b.None? || b.value == NotAvailable ==> LoadVersion(file, parse).buildVersion == NotAvailable)
  {
    var v := LoadVersion(file, parse).buildVersion;
    assert v[..6] == "sonic.";
  }

  /** The JSON document getBuildVersion marshals. */
  function VersionJson(v: VersionInfo): JsonValue
  {
    JObject(map["build_version" := JString(v.buildVersion), "error" := JString(v.error)])
  }

  /** sonicVersionYmlStash: whether the file was loaded, and what was loaded. */
  class VersionStash {
    var loaded: bool
    var info: VersionInfo

    /** The zero value, as InvalidateVersionFileStash leaves it. */
    constructor ()
      ensures !loaded && info == VersionInfo("", "")
    {
      loaded := false;
      info := VersionInfo("", "");
    }

    /** InvalidateVersionFileStash: forget the loaded content. */
    method Invalidate()
      modifies this
      ensures !loaded && info == VersionInfo("", "")
    {
      loaded := false;
      info := VersionInfo("", "");
    }

    /**
     * getBuildVersion: loads the file on the first call after creation or
     * invalidation and answers every later call from the stash.
     */
    method GetBuildVersion(file: FileRead, parse: string -> Parsed) returns (doc: JsonValue)
      modifies this
      ensures loaded
      ensures old(loaded) ==> info == old(info)
      ensures !old(loaded) ==> info == LoadVersion(file, parse)
      ensures doc == VersionJson(info)
    {
      if !loaded {
        loaded := true;
        info := VersionInfo(NotAvailable, "");
        match file {
          case ReadError(m) =>
            info := info.(error := m);
          case Content(text) =>
            match parse(text) {
              case ParseError(m) =>
                info := info.(error := m);
              case Parsed(b) =>
                if b.Some? {
                  info := info.(buildVersion := b.value);
                }
                if info.buildVersion != NotAvailable {
                  info := info.(buildVersion := "sonic." + info.buildVersion);
                }
            }
        }
      }
      doc := VersionJson(info);
    }
  }

  /** Two calls without an invalidation in between report the same version, whatever the file holds by then. */
  method LoadedOnce(stash: VersionStash, file1: FileRead, file2: FileRead, parse: string -> Parsed)
    returns (first: JsonValue, second: JsonValue)
    modifies stash
    ensures first == second
    ensures !old(stash.loaded) ==> first == VersionJson(LoadVersion(file1, parse))
  {
    first := stash.GetBuildVersion(file1, parse);
    second := stash.GetBuildVersion(file2, parse);
  }

  /* The client */

  /** The data getters of path2DataFuncTbl. */
  datatype Getter = CpuUtilGetter | SysUptime | ProcMeminfo | ProcDiskstats | ProcLoadavg | ProcVmstat | ProcStat
                  | BuildVersion

  /** The client trie: registered paths (target first) and their getters. */
  type Trie = seq<(seq<string>, Getter)>

  /** path2DataFuncTbl: the paths init registers in the client trie and their getters. */
  const GetterTable: Trie := [
    (["OTHERS", "platform", "cpu"], CpuUtilGetter),
    (["OTHERS", "proc", "uptime"], SysUptime),
    (["OTHERS", "proc", "meminfo"], ProcMeminfo),
    (["OTHERS", "proc", "diskstats"], ProcDiskstats),
    (["OTHERS", "proc", "loadavg"], ProcLoadavg),
    (["OTHERS", "proc", "vmstat"], ProcVmstat),
    (["OTHERS", "proc", "stat"], ProcStat),
    (["OTHERS", "osversion", "build"], BuildVersion)]

  /** The getter the table registers under `names`, searching from entry `i`. */
  function FindGetter(table: Trie, names: seq<string>, i: nat): Option<Getter>
    requires i <= |table|
    decreases |table| - i
  {
    if i == |table| then None
    else if table[i].0 == names then Some(table[i].1)
    else FindGetter(table, names, i + 1)
  }

  /** The search finds a getter exactly when one is registered under `names`, and then a registered one. */
  lemma {:induction false} FindGetterMeaning(table: Trie, names: seq<string>, i: nat)
    requires i <= |table|
    ensures FindGetter(table, names, i).Some? <==> exists k :: i <= k < |table| && table[k].0 == names
    ensures FindGetter(table, names, i).Some? ==>
      exists k :: i <= k < |table| && table[k] == (names, FindGetter(table, names, i).value)
    decreases |table| - i
  {
    if i < |table| && table[i].0 != names {
      FindGetterMeaning(table, names, i + 1);
    }
  }

  /**
   * The table registers eight getters under eight distinct OTHERS paths of
   * three names.
   */
  lemma GetterTableShape()
    ensures |GetterTable| == 8
    ensures forall k :: 0 <= k < |GetterTable| ==> |GetterTable[k].0| == 3 && GetterTable[k].0[0] == "OTHERS"
    ensures forall k, l :: 0 <= k < l < |GetterTable| ==> GetterTable[k].0 != GetterTable[l].0 && GetterTable[k].1 != GetterTable[l].1
  {
  }

  /** The lookup finds every getter under its own path. */
  lemma GettersFound()
    ensures forall k :: 0 <= k < |GetterTable| ==> FindGetter(GetterTable, GetterTable[k].0, 0) == Some(GetterTable[k].1)
  {
    GetterTableShape();
    forall k | 0 <= k < |GetterTable| ensures FindGetter(GetterTable, GetterTable[k].0, 0) == Some(GetterTable[k].1) {
      FindGetterMeaning(GetterTable, GetterTable[k].0, 0);
      var r := FindGetter(GetterTable, GetterTable[k].0, 0);
      var l :| 0 <= l < |GetterTable| && GetterTable[l] == (GetterTable[k].0, r.value);
      assert l == k;
    }
  }

  /**
   * lookupGetFunc: the target followed by the full path's element names,
   * looked up among the registered paths.
   */
  method LookupGetFunc(trie: Trie, prefix: Path, path: Path) returns (r: Result<Getter>)
    ensures r == GetterLookup(trie, prefix)(path)
  {
    var stringSlice := [prefix.target];
    var fullPath := VdbPath.GnmiFullPath(prefix, path);
    var elems := fullPath.elem;
    for i := 0 to |elems|
      invariant stringSlice == [prefix.target] + Names(elems[..i])
    {
      NamesSnoc(elems[..i], elems[i]);
      assert elems[..i + 1] == elems[..i] + [elems[i]];
      stringSlice := stringSlice + [elems[i].name];
    }
    assert elems[..|elems|] == elems;
    var n := FindGetter(trie, stringSlice, 0);
    if n.Some? {
      return Ok(n.value);
    }
    return Err(SdcPath.SliceString(stringSlice) + " not found in clientTrie tree");
  }

  /** The names lookupGetFunc searches for: the target, then the full path's element names. */
  function RequestNames(prefix: Path, path: Path): seq<string>
  {
    [prefix.target] + Names(VdbPath.GnmiFullPath(prefix, path).elem)
  }

  /** The getter of a request path, or the lookup error. */
  function GetterOf(trie: Trie, prefix: Path, path: Path): (r: Result<Getter>)
    ensures !r.Panic?
  {
    var names := RequestNames(prefix, path);
    match FindGetter(trie, names, 0)
    case Some(g) => Ok(g)
    case None => Err(SdcPath.SliceString(names) + " not found in clientTrie tree")
  }

  /**
   * A request path has a getter exactly when its names are registered, and
   * then it is the registered one; otherwise the error names the path.
   */
  lemma GetterOfMeaning(trie: Trie, prefix: Path, path: Path)
    ensures var names := RequestNames(prefix, path); var r := GetterOf(trie, prefix, path);
      && (r.Ok? <==> exists k :: 0 <= k < |trie| && trie[k].0 == names)
      && (r.Ok? ==> exists k :: 0 <= k < |trie| && trie[k] == (names, r.value))
      && (r.Err? ==> r.msg == SdcPath.SliceString(names) + " not found in clientTrie tree")
  {
    FindGetterMeaning(trie, RequestNames(prefix, path), 0);
  }

  /** Under the registered table only an OTHERS prefix with two path elements reaches a getter. */
  lemma GetterNeedsOthers(prefix: Path, path: Path)
    requires GetterOf(GetterTable, prefix, path).Ok?
    ensures prefix.target == "OTHERS" && |VdbPath.GnmiFullPath(prefix, path).elem| == 2
  {
    GetterOfMeaning(GetterTable, prefix, path);
    GetterTableShape();
  }

  /** The getters `lookup` gives for `paths` in order, or the error of the first path without one. */
  function Lookups(lookup: Path -> Result<Getter>, paths: seq<Path>): (r: Result<seq<(Path, Getter)>>)
    ensures r.Ok? ==> |r.value| == |paths|
    decreases |paths|
  {
    if paths == [] then Ok([])
    else
      var g := lookup(paths[0]);
      if g.Err? then Err(g.msg)
      else if g.Panic? then Panic(g.reason)
      else
        var rest := Lookups(lookup, paths[1..]);
        if rest.Ok? then Ok([(paths[0], g.value)] + rest.value) else rest
  }

  /**
   * Looking paths up succeeds exactly when every path has a getter, then
   * pairs each path with its getter in order; otherwise it fails with the
   * error of the first path without one.
   */
  lemma {:induction false} LookupsMeaning(lookup: Path -> Result<Getter>, paths: seq<Path>)
    requires forall p :: !lookup(p).Panic?
    ensures Lookups(lookup, paths).Ok? <==> forall i :: 0 <= i < |paths| ==> lookup(paths[i]).Ok?
    ensures Lookups(lookup, paths).Ok? ==>
      forall i :: 0 <= i < |paths| ==> Lookups(lookup, paths).value[i] == (paths[i], lookup(paths[i]).value)
    ensures Lookups(lookup, paths).Err? ==>
      exists k :: 0 <= k < |paths| && lookup(paths[k]) == Err(Lookups(lookup, paths).msg)
              && forall i :: 0 <= i < k ==> lookup(paths[i]).Ok?
    decreases |paths|
  {
    if paths != [] {
      LookupsMeaning(lookup, paths[1..]);
      assert forall i :: 1 <= i < |paths| ==> paths[i] == paths[1..][i - 1];
      var r := Lookups(lookup, paths);
      if lookup(paths[0]).Ok? && r.Err? {
        var k :| 0 <= k < |paths[1..]| && lookup(paths[1..][k]) == Err(r.msg)
                  && forall i :: 0 <= i < k ==> lookup(paths[1..][i]).Ok?;
        assert lookup(paths[k + 1]) == Err(r.msg);
      }
    }
  }

  /** lookupGetFunc under a fixed trie and prefix. */
  function GetterLookup(trie: Trie, prefix: Path): (f: Path -> Result<Getter>)
    ensures forall p :: !f(p).Panic?
  {
    p => GetterOf(trie, prefix, p)
  }

  /** The getters NewNonDbClient registers for `paths`, or its error. */
  function GettersOf(trie: Trie, prefix: Path, paths: seq<Path>): Result<seq<(Path, Getter)>>
  {
    Lookups(GetterLookup(trie, prefix), paths)
  }

  /** NonDbClient: the request prefix and the getter of every requested path. */
  class NonDbClient {
    const prefix: Path
    const path2Getter: seq<(Path, Getter)>

    constructor (prefix: Path, path2Getter: seq<(Path, Getter)>)
      ensures this.prefix == prefix && this.path2Getter == path2Getter
    {
      this.prefix := prefix;
      this.path2Getter := path2Getter;
    }

    /**
     * Get: one JSON_IETF value per path, with the getter's output, in the
     * unspecified order of a Go map; getter errors are only logged.
     */
    method Get(ts: int, output: Getter -> JsonValue) returns (values: seq<Value>, ghost order: seq<(Path, Getter)>)
      ensures multiset(order) == multiset(path2Getter)
      ensures |values| == |order|
      ensures forall i :: 0 <= i < |order| ==> values[i] == GetterValue(prefix, ts, output, order[i])
    {
      var visit: seq<(Path, Getter)> :| multiset(visit) == multiset(path2Getter);
      order := visit;
      values := [];
      for i := 0 to |visit|
        invariant |values| == i
        invariant forall k :: 0 <= k < i ==> values[k] == GetterValue(prefix, ts, output, visit[k])
      {
        values := values + [GetterValue(prefix, ts, output, visit[i])];
      }
    }
  }

  /** The value Get reports for one path and its getter. */
  function GetterValue(prefix: Path, ts: int, output: Getter -> JsonValue, e: (Path, Getter)): Value
  {
    Value(Some(prefix), Some(e.0), ts, Some(JsonIetfVal(output(e.1))), false, "")
  }

  /**
   * NewNonDbClient: looks every path up in order and fails at the first
   * one without a getter.
   */
  method NewNonDbClient(trie: Trie, paths: seq<Path>, prefix: Path) returns (r: Result<NonDbClient>)
    ensures !r.Panic?
    ensures r.Ok? <==> GettersOf(trie, prefix, paths).Ok?
    ensures r.Ok? ==> fresh(r.value) && r.value.prefix == prefix && r.value.path2Getter == GettersOf(trie, prefix, paths).value
    ensures r.Err? ==> GettersOf(trie, prefix, paths) == Err(r.msg)
  {
    ghost var lookup := GetterLookup(trie, prefix);
    var entries: seq<(Path, Getter)> := [];
    assert paths[0..] == paths;
    for i := 0 to |paths|
      invariant Lookups(lookup, paths) == Chain(entries, Lookups(lookup, paths[i..]))
    {
      var getter := LookupGetFunc(trie, prefix, paths[i]);
      assert lookup(paths[i]) == getter;
      ChainStep(lookup, entries, paths[i..]);
      if getter.Err? {
        assert Lookups(lookup, paths) == Err(getter.msg);
        return Err(getter.msg);
      }
      assert paths[i..][1..] == paths[i + 1..];
      entries := entries + [(paths[i], getter.value)];
    }
    assert Lookups(lookup, paths[|paths|..]) == Ok([]);
    assert entries + [] == entries;
    var c := new NonDbClient(prefix, entries);
    return Ok(c);
  }

  /** One lookup of NewNonDbClient's loop: an error ends the chain, a getter extends the entries. */
  lemma {:induction false} ChainStep(lookup: Path -> Result<Getter>, entries: seq<(Path, Getter)>, rest: seq<Path>)
    requires rest != []
    ensures var g := lookup(rest[0]);
      && (g.Err? ==> Chain(entries, Lookups(lookup, rest)) == Err(g.msg))
      && (g.Ok? ==> Chain(entries, Lookups(lookup, rest)) == Chain(entries + [(rest[0], g.value)], Lookups(lookup, rest[1..])))
  {
    var g := lookup(rest[0]);
    var tail := Lookups(lookup, rest[1..]);
    if g.Ok? && tail.Ok? {
      assert entries + ([(rest[0], g.value)] + tail.value) == entries + [(rest[0], g.value)] + tail.value;
    }
  }

  /** The entries written so far ahead of the outcome for the rest. */
  function Chain(es: seq<(Path, Getter)>, r: Result<seq<(Path, Getter)>>): (c: Result<seq<(Path, Getter)>>)
    ensures es == [] ==> c == r
  {
    if r.Ok? then assert [] + r.value == r.value; Ok(es + r.value) else r
  }
}
