/**
 The tier virtual clock on its own: every pid has a tick, a pick takes a pid with the least tick and
 advances it by its divisor. Which of several least pids is taken is left open throughout.
 */
module FairShare {
  import opened Sums

  type Ticks = map<string, nat>

  /** `pid` is a most overdue pid. */
  predicate Least(ticks: Ticks, pid: string) {
    pid in ticks && forall q :: q in ticks ==> ticks[pid] <= ticks[q]
  }

  /** One pick and the ticks after it. */
  predicate Pick(ticks: Ticks, divisors: map<string, nat>, pid: string, next: Ticks) {
    Least(ticks, pid) && pid in divisors && next == ticks[pid := ticks[pid] + divisors[pid]]
  }

  /** The serial schedules `picks` leading from `ticks` to `last`. */
  ghost predicate Serial(ticks: Ticks, divisors: map<string, nat>, picks: seq<string>, last: Ticks) {
    if picks == [] then last == ticks
    else
      var k := |picks| - 1;
      exists mid :: Serial(ticks, divisors, picks[..k], mid) && Pick(mid, divisors, picks[k], last)
  }

  predicate Divisors(ticks: Ticks, divisors: map<string, nat>) {
    ticks.Keys <= divisors.Keys && forall q :: q in divisors ==> divisors[q] >= 1
  }

  /** No pid is ahead of another by more than its own divisor. */
  predicate Spread(ticks: Ticks, divisors: map<string, nat>)
    requires ticks.Keys <= divisors.Keys
  {
    forall p, q :: p in ticks && q in ticks ==> ticks[p] <= ticks[q] + divisors[p]
  }

  /** All pids at the same tick. */
  predicate Level(ticks: Ticks) {
    forall x, y :: x in ticks && y in ticks ==> ticks[x] == ticks[y]
  }

  function Count(picks: seq<string>, pid: string): nat {
    if picks == [] then 0 else Count(picks[..|picks| - 1], pid) + if picks[|picks| - 1] == pid then 1 else 0
  }

  /** The clock time a pid's picks have used up. */
  function Used(picks: seq<string>, divisors: map<string, nat>, pid: string): nat
    requires pid in divisors
  {
    Count(picks, pid) * divisors[pid]
  }

  lemma SpreadStep(ticks: Ticks, divisors: map<string, nat>, pid: string, next: Ticks)
    requires Divisors(ticks, divisors) && Spread(ticks, divisors) && Pick(ticks, divisors, pid, next)
    ensures Spread(next, divisors)
  {
  }

  /** The spread is kept over every serial schedule. */
  lemma {:induction false} SerialSpread(ticks: Ticks, divisors: map<string, nat>, picks: seq<string>, last: Ticks)
    requires Divisors(ticks, divisors) && Spread(ticks, divisors) && Serial(ticks, divisors, picks, last)
    ensures last.Keys == ticks.Keys && Spread(last, divisors)
  {
    hide Spread;
    if picks != [] {
      var k := |picks| - 1;
      var mid :| Serial(ticks, divisors, picks[..k], mid) && Pick(mid, divisors, picks[k], last);
      SerialSpread(ticks, divisors, picks[..k], mid);
      SpreadStep(mid, divisors, picks[k], last);
    }
  }

  // A tick is its start plus its picks' worth of divisors.
  lemma {:induction false} SerialTick(ticks: Ticks, divisors: map<string, nat>, picks: seq<string>, last: Ticks,
                                      p: string)
    requires Divisors(ticks, divisors) && Serial(ticks, divisors, picks, last) && p in ticks
    ensures last.Keys == ticks.Keys && last[p] == ticks[p] + Used(picks, divisors, p)
  {
    if picks != [] {
      var k := |picks| - 1;
      var mid :| Serial(ticks, divisors, picks[..k], mid) && Pick(mid, divisors, picks[k], last);
      SerialTick(ticks, divisors, picks[..k], mid, p);
      UsedStep(picks, divisors, p);
      hide Used, Serial;
    }
  }

  lemma UsedStep(picks: seq<string>, divisors: map<string, nat>, p: string)
    requires picks != [] && p in divisors
    ensures Used(picks, divisors, p) ==
            Used(picks[..|picks| - 1], divisors, p) + if picks[|picks| - 1] == p then divisors[p] else 0
  {
    var n := Count(picks[..|picks| - 1], p);
    assert (n + 1) * divisors[p] == n * divisors[p] + divisors[p];
  }

  /**
   Proportional share. From equal ticks, after any serial schedule, the polls of two pids weighted by their
   divisors differ by at most one divisor, and no pid is ahead of the least tick by more than its divisor.
   */
  lemma ProportionalShare(ticks: Ticks, divisors: map<string, nat>, picks: seq<string>, last: Ticks, p: string,
                          q: string)
    requires Divisors(ticks, divisors) && Serial(ticks, divisors, picks, last) && p in ticks && q in ticks &&
             Level(ticks)
    ensures last.Keys == ticks.Keys && last[p] <= last[q] + divisors[p]
    ensures Used(picks, divisors, p) <= Used(picks, divisors, q) + divisors[p]
    ensures Used(picks, divisors, q) <= Used(picks, divisors, p) + divisors[q]
  {
    EqualSpread(ticks, divisors);
    SerialSpread(ticks, divisors, picks, last);
    SerialTick(ticks, divisors, picks, last, p);
    SerialTick(ticks, divisors, picks, last, q);
    assert last[p] <= last[q] + divisors[p] && last[q] <= last[p] + divisors[q] && ticks[p] == ticks[q];
    hide *;
  }

  lemma EqualSpread(ticks: Ticks, divisors: map<string, nat>)
    requires Divisors(ticks, divisors) && Level(ticks)
    ensures Spread(ticks, divisors)
  {
  }

  // ---------------------------------------------------------------- starvation

  /** How many picks can go to others before `pid` is due: an upper bound that every such pick lowers. */
  ghost function Rank(ticks: Ticks, pid: string): nat
    requires pid in ticks
  {
    Sum(ticks.Keys - {pid}, q => Lead(ticks, pid, q))
  }

  function Lead(ticks: Ticks, pid: string, q: string): nat {
    if pid in ticks && q in ticks && ticks[q] <= ticks[pid] then ticks[pid] - ticks[q] + 1 else 0
  }

  lemma RankFalls(ticks: Ticks, divisors: map<string, nat>, pid: string, other: string, next: Ticks)
    requires Divisors(ticks, divisors) && Pick(ticks, divisors, other, next) && pid in ticks && other != pid
    ensures Rank(next, pid) < Rank(ticks, pid)
  {
    var others := ticks.Keys - {pid};
    assert next.Keys == ticks.Keys;
    SumAt(others, q => Lead(ticks, pid, q), q => Lead(next, pid, q), other);
  }

  lemma {:induction false} SerialHead(ticks: Ticks, divisors: map<string, nat>, picks: seq<string>, last: Ticks)
    returns (next: Ticks)
    requires picks != [] && Serial(ticks, divisors, picks, last)
    ensures Pick(ticks, divisors, picks[0], next) && Serial(next, divisors, picks[1..], last)
  {
    var k := |picks| - 1;
    var mid :| Serial(ticks, divisors, picks[..k], mid) && Pick(mid, divisors, picks[k], last);
    if k == 0 {
      assert mid == ticks;
      next := last;
    } else {
      next := SerialHead(ticks, divisors, picks[..k], mid);
      assert picks[1..][..k - 1] == picks[..k][1..];
      assert Serial(next, divisors, picks[1..][..k - 1], mid);
    }
  }

  /** Starvation freedom: a schedule of at least `Rank` + 1 picks picks `pid`. */
  lemma {:induction false} NoStarvation(ticks: Ticks, divisors: map<string, nat>, picks: seq<string>, last: Ticks,
                                        pid: string)
    requires Divisors(ticks, divisors) && Serial(ticks, divisors, picks, last) && pid in ticks
    requires |picks| > Rank(ticks, pid)
    ensures pid in picks
    decreases |picks|
  {
    var next := SerialHead(ticks, divisors, picks, last);
    if picks[0] != pid {
      RankFalls(ticks, divisors, pid, picks[0], next);
      NoStarvation(next, divisors, picks[1..], last, pid);
    }
  }

  // ---------------------------------------------------------------- adding a pid mid-run

  /** The floor new pids are seeded at. */
  predicate Floor(ticks: Ticks, seed: nat) {
    if ticks == map[] then seed == 0
    else (exists p :: p in ticks && ticks[p] == seed) && forall q :: q in ticks ==> seed <= ticks[q]
  }

  /** Seeding at the floor keeps the spread. */
  lemma SeedKeepsSpread(ticks: Ticks, divisors: map<string, nat>, pid: string, seed: nat)
    requires Divisors(ticks, divisors) && Spread(ticks, divisors) && Floor(ticks, seed) && pid in divisors
    ensures Spread(ticks[pid := seed], divisors)
  {
    if ticks != map[] {
      var m :| m in ticks && ticks[m] == seed;
      forall p | p in ticks ensures ticks[p] <= seed + divisors[p] {
        assert ticks[p] <= ticks[m] + divisors[p];
      }
    }
  }

  /** While `pid` sits at the floor and is not picked, no other pid is picked twice. */
  lemma {:induction false} FreshFirst(ticks: Ticks, divisors: map<string, nat>, picks: seq<string>, last: Ticks,
                                      pid: string, q: string)
    requires Divisors(ticks, divisors) && Serial(ticks, divisors, picks, last)
    requires Least(ticks, pid) && pid !in picks
    ensures Count(picks, q) <= 1
    ensures last.Keys == ticks.Keys && last[pid] == ticks[pid]
    ensures q in ticks && Count(picks, q) == 1 ==> last[q] > ticks[pid]
    ensures q in ticks && Count(picks, q) == 0 ==> last[q] == ticks[q]
    ensures q !in ticks ==> Count(picks, q) == 0
  {
    if picks != [] {
      var k := |picks| - 1;
      var mid :| Serial(ticks, divisors, picks[..k], mid) && Pick(mid, divisors, picks[k], last);
      FreshFirst(ticks, divisors, picks[..k], mid, pid, q);
      assert picks[k] in picks;
    }
  }

  // ---------------------------------------------------------------- sweeps

  /** One exchange of everything due: all pids at the least tick advance together. */
  ghost predicate Sweep(ticks: Ticks, divisors: map<string, nat>, due: set<string>, next: Ticks)
    requires ticks.Keys <= divisors.Keys
  {
    && (forall p :: p in due <==> Least(ticks, p))
    && next == map p | p in ticks :: if p in due then ticks[p] + divisors[p] else ticks[p]
  }

  ghost predicate Sweeps(ticks: Ticks, divisors: map<string, nat>, dues: seq<set<string>>, last: Ticks)
    requires ticks.Keys <= divisors.Keys
  {
    if dues == [] then last == ticks
    else
      var k := |dues| - 1;
      exists mid ::
        && Sweeps(ticks, divisors, dues[..k], mid) && mid.Keys == ticks.Keys
        && Sweep(mid, divisors, dues[k], last)
  }

  function Joined(dues: seq<set<string>>, pid: string): nat {
    if dues == [] then 0 else Joined(dues[..|dues| - 1], pid) + if pid in dues[|dues| - 1] then 1 else 0
  }

  function Swept(dues: seq<set<string>>, divisors: map<string, nat>, pid: string): nat
    requires pid in divisors
  {
    Joined(dues, pid) * divisors[pid]
  }

  lemma SweptStep(dues: seq<set<string>>, divisors: map<string, nat>, p: string)
    requires dues != [] && p in divisors
    ensures Swept(dues, divisors, p) ==
            Swept(dues[..|dues| - 1], divisors, p) + if p in dues[|dues| - 1] then divisors[p] else 0
  {
    var n := Joined(dues[..|dues| - 1], p);
    assert (n + 1) * divisors[p] == n * divisors[p] + divisors[p];
  }

  // A sweep takes exactly the pids level with the least one.
  lemma SweepMove(mid: Ticks, divisors: map<string, nat>, due: set<string>, last: Ticks, fast: string, p: string)
    requires mid.Keys <= divisors.Keys && Sweep(mid, divisors, due, last) && Least(mid, fast) && p in mid
    ensures last.Keys == mid.Keys && mid[fast] <= mid[p]
    ensures p in due <==> mid[p] == mid[fast]
    ensures last[p] == if p in due then mid[p] + divisors[p] else mid[p]
  {
  }

  // With a pid of divisor 1 from equal ticks, sweep n finds the clock at the start tick plus n.
  lemma {:induction false} SweepClock(ticks: Ticks, divisors: map<string, nat>, dues: seq<set<string>>, last: Ticks,
                                      start: nat, fast: string)
    requires Divisors(ticks, divisors) && Sweeps(ticks, divisors, dues, last)
    requires fast in ticks && divisors[fast] == 1 && Level(ticks) && ticks[fast] == start
    ensures last.Keys == ticks.Keys && last[fast] == start + |dues| && Least(last, fast)
  {
    if dues != [] {
      var k := |dues| - 1;
      var mid :| Sweeps(ticks, divisors, dues[..k], mid) && mid.Keys == ticks.Keys &&
        Sweep(mid, divisors, dues[k], last);
      SweepClock(ticks, divisors, dues[..k], mid, start, fast);
      hide Sweeps, Sweep;
      SweepMove(mid, divisors, dues[k], last, fast, fast);
      forall p | p in last ensures last[fast] <= last[p] { SweepMove(mid, divisors, dues[k], last, fast, p); }
    }
  }

  // A pid's tick counts the sweeps it joined, and never lags or leads the clock by a divisor.
  lemma {:induction false} SweepTick(ticks: Ticks, divisors: map<string, nat>, dues: seq<set<string>>, last: Ticks,
                                     start: nat, fast: string, p: string)
    requires Divisors(ticks, divisors) && Sweeps(ticks, divisors, dues, last) && p in ticks
    requires fast in ticks && divisors[fast] == 1 && Level(ticks) && ticks[fast] == start
    ensures last.Keys == ticks.Keys && last[p] == start + Swept(dues, divisors, p)
    ensures start + |dues| <= last[p] < start + |dues| + divisors[p]
  {
    if dues != [] {
      var k := |dues| - 1;
      var mid :| Sweeps(ticks, divisors, dues[..k], mid) && mid.Keys == ticks.Keys &&
        Sweep(mid, divisors, dues[k], last);
      SweepClock(ticks, divisors, dues[..k], mid, start, fast);
      SweepTick(ticks, divisors, dues[..k], mid, start, fast, p);
      SweptStep(dues, divisors, p);
      hide Sweeps, Sweep, Least, Level, Swept;
      SweepMove(mid, divisors, dues[k], last, fast, p);
    }
  }

  /** Sweep semantics: with a pid of divisor 1 and equal starts,
      a pid of divisor d joins exactly ceil(N / d) of N sweeps. */
  lemma SweepShare(ticks: Ticks, divisors: map<string, nat>, dues: seq<set<string>>, last: Ticks, fast: string,
                   p: string)
    requires Divisors(ticks, divisors) && Sweeps(ticks, divisors, dues, last)
    requires fast in ticks && divisors[fast] == 1 && p in ticks && Level(ticks)
    ensures Joined(dues, p) == CeilDiv(|dues|, divisors[p])
  {
    SweepTick(ticks, divisors, dues, last, ticks[fast], fast, p);
    hide Sweeps;
    CeilDivExact(|dues|, divisors[p], Joined(dues, p));
  }
}
