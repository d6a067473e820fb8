/**
 The per-IP connection limiter: a window that opens with the first connection and admits a
 limited number, and a ban for whoever exceeds it. Times are integers.
 */
module ConnLimiter {
  import opened Basics

  /** The limit is at least one and a ban lasts at least one window. */
  datatype Config = Config(max: nat, window: nat, ban: nat)

  ghost predicate Proper(cfg: Config) {
    cfg.max >= 1 && cfg.window >= 1 && cfg.ban >= cfg.window
  }

  datatype Window = Window(count: nat, resetAt: int)

  /** What the limiter knows about one address. */
  datatype Cell = Cell(window: Option<Window>, ban: Option<int>)

  function Judge(cfg: Config, c: Cell, now: int): (Cell, bool) {
    if c.ban.Some? && now < c.ban.value then (c, false)
    else if c.window.None? || now >= c.window.value.resetAt then (Cell(Some(Window(1, now + cfg.window)), None), true)
    else
      var count := c.window.value.count + 1;
      if count > cfg.max then (Cell(None, Some(now + cfg.ban)), false)
      else (Cell(Some(Window(count, c.window.value.resetAt)), None), true)
  }

  function Swept(c: Cell, now: int): Cell {
    Cell(if c.window.Some? && now >= c.window.value.resetAt then None else c.window,
         if c.ban.Some? && now >= c.ban.value then None else c.ban)
  }

  // ---- The limiter itself: two maps keyed by address ----

  function CellOf(windows: map<string, Window>, banned: map<string, int>, ip: string): Cell {
    Cell(if ip in windows then Some(windows[ip]) else None, if ip in banned then Some(banned[ip]) else None)
  }

  class Limiter {
    const cfg: Config
    var windows: map<string, Window>
    var banned: map<string, int>

    function At(ip: string): Cell
      reads this
    {
      CellOf(windows, banned, ip)
    }

    constructor (cfg: Config)
      ensures this.cfg == cfg && forall ip :: At(ip) == Cell(None, None)
    {
      this.cfg, windows, banned := cfg, map[], map[];
    }

    /** Judges one connection; no other address is affected. */
    method Allow(ip: string, now: int) returns (ok: bool)
      modifies this
      ensures (At(ip), ok) == Judge(cfg, old(At(ip)), now)
      ensures forall other :: other != ip ==> At(other) == old(At(other))
    {
      if ip in banned {
        if now < banned[ip] { return false; }
        banned := banned - {ip};
      }
      if ip !in windows || now >= windows[ip].resetAt {
        windows := windows[ip := Window(1, now + cfg.window)];
        return true;
      }
      var w := windows[ip];
      w := w.(count := w.count + 1);
      if w.count > cfg.max {
        banned := banned[ip := now + cfg.ban];
        windows := windows - {ip};
        return false;
      }
      windows := windows[ip := w];
      return true;
    }

    /** Removes every expired window and ban. */
    method Cleanup(now: int)
      modifies this
      ensures forall ip :: At(ip) == Swept(old(At(ip)), now)
    {
      var left := windows.Keys;
      while left != {}
        invariant left <= old(windows).Keys && banned == old(banned)
        invariant forall ip :: ip in windows <==> ip in old(windows) && (ip in left || now < old(windows)[ip].resetAt)
        invariant forall ip :: ip in windows ==> windows[ip] == old(windows)[ip]
        decreases left
      {
        var ip :| ip in left;
        if now >= windows[ip].resetAt { windows := windows - {ip}; }
        left := left - {ip};
      }
      var rest := banned.Keys;
      while rest != {}
        invariant rest <= old(banned).Keys
        invariant forall ip :: ip in windows <==> ip in old(windows) && now < old(windows)[ip].resetAt
        invariant forall ip :: ip in windows ==> windows[ip] == old(windows)[ip]
        invariant forall ip :: ip in banned <==> ip in old(banned) && (ip in rest || now < old(banned)[ip])
        invariant forall ip :: ip in banned ==> banned[ip] == old(banned)[ip]
        decreases rest
      {
        var ip :| ip in rest;
        if now >= banned[ip] { banned := banned - {ip}; }
        rest := rest - {ip};
      }
    }
  }

  // ---- Cleaning up is invisible ----

  /** Cells that differ only in entries expired by now. */
  ghost predicate Alike(c: Cell, d: Cell, now: int) {
    && (c.window == d.window || ((c.window.Some? ==> now >= c.window.value.resetAt) && (d.window.Some? ==> now >= d.window.value.resetAt)))
    && (c.ban == d.ban || ((c.ban.Some? ==> now >= c.ban.value) && (d.ban.Some? ==> now >= d.ban.value)))
  }

  lemma AlikeJudged(cfg: Config, c: Cell, d: Cell, before: int, now: int)
    requires Alike(c, d, before) && before <= now
    ensures Judge(cfg, c, now).1 == Judge(cfg, d, now).1
    ensures Alike(Judge(cfg, c, now).0, Judge(cfg, d, now).0, now)
  {
  }

  datatype Op = Connect(at: int) | Clean(at: int)

  function Step(cfg: Config, c: Cell, op: Op): (Cell, bool) {
    match op
    case Connect(at) => Judge(cfg, c, at)
    case Clean(at) => (Swept(c, at), false)
  }

  /** The same history with every clean-up left out. */
  function StepUncleaned(cfg: Config, c: Cell, op: Op): (Cell, bool) {
    match op case Connect(at) => Judge(cfg, c, at) case Clean(_) => (c, false)
  }

  /** Two runs over the same operations, one of which skips the clean-ups, with times that never go back. */
  ghost predicate Twins(cfg: Config, ops: seq<Op>, cleaned: seq<Cell>, uncleaned: seq<Cell>) {
    && |cleaned| == |uncleaned| == |ops| + 1 && cleaned[0] == uncleaned[0]
    && (forall i, j :: 0 <= i <= j < |ops| ==> ops[i].at <= ops[j].at)
    && (forall i :: 0 <= i < |ops| ==> cleaned[i + 1] == Step(cfg, cleaned[i], ops[i]).0 && uncleaned[i + 1] == StepUncleaned(cfg, uncleaned[i], ops[i]).0)
  }

  lemma {:induction false} TwinsAlike(cfg: Config, ops: seq<Op>, cleaned: seq<Cell>, uncleaned: seq<Cell>, i: nat)
    requires Twins(cfg, ops, cleaned, uncleaned) && 0 < i <= |ops|
    ensures Alike(cleaned[i], uncleaned[i], ops[i - 1].at)
    decreases i
  {
    if i > 1 {
      TwinsAlike(cfg, ops, cleaned, uncleaned, i - 1);
      if ops[i - 1].Connect? {
        AlikeJudged(cfg, cleaned[i - 1], uncleaned[i - 1], ops[i - 2].at, ops[i - 1].at);
      }
    } else if ops[0].Connect? {
      AlikeJudged(cfg, cleaned[0], uncleaned[0], ops[0].at, ops[0].at);
    }
  }

  /** Whenever clean-ups run, every connection gets the verdict it would have got without them. */
  lemma CleanupInvisible(cfg: Config, ops: seq<Op>, cleaned: seq<Cell>, uncleaned: seq<Cell>, i: nat)
    requires Twins(cfg, ops, cleaned, uncleaned) && i < |ops| && ops[i].Connect?
    ensures Step(cfg, cleaned[i], ops[i]).1 == StepUncleaned(cfg, uncleaned[i], ops[i]).1
  {
    if i > 0 {
      TwinsAlike(cfg, ops, cleaned, uncleaned, i);
      AlikeJudged(cfg, cleaned[i], uncleaned[i], ops[i - 1].at, ops[i].at);
    }
  }

  // ---- How many connections any stretch of one window's length admits ----

  /** One window's admissions, in order; the first opened it. */
  datatype Opened = Opened(start: int, times: seq<int>)

  ghost predicate WindowOk(cfg: Config, w: Opened) {
    && 1 <= |w.times| <= cfg.max && w.times[0] == w.start
    && forall i :: 0 <= i < |w.times| ==> w.start <= w.times[i] < w.start + cfg.window
  }

  /** Windows open at least one window's length apart. */
  ghost predicate WindowsOk(cfg: Config, ws: seq<Opened>) {
    && (forall i :: 0 <= i < |ws| ==> WindowOk(cfg, ws[i]))
    && (forall i :: 0 <= i < |ws| - 1 ==> ws[i + 1].start >= ws[i].start + cfg.window)
  }

  function Within(times: seq<int>, lo: int, hi: int): nat {
    if times == [] then 0
    else Within(times[..|times| - 1], lo, hi) + if lo <= times[|times| - 1] < hi then 1 else 0
  }

  function Total(ws: seq<Opened>, lo: int, hi: int): nat {
    if ws == [] then 0 else Total(ws[..|ws| - 1], lo, hi) + Within(ws[|ws| - 1].times, lo, hi)
  }

  lemma {:induction false} WithinBound(times: seq<int>, lo: int, hi: int)
    ensures Within(times, lo, hi) <= |times|
    ensures times != [] && !(lo <= times[0] < hi) ==> Within(times, lo, hi) <= |times| - 1
    ensures (forall i :: 0 <= i < |times| ==> !(lo <= times[i] < hi)) ==> Within(times, lo, hi) == 0
    decreases |times|
  {
    if times != [] {
      WithinBound(times[..|times| - 1], lo, hi);
    }
  }

  lemma {:induction false} Bygone(cfg: Config, ws: seq<Opened>, lo: int, hi: int)
    requires WindowsOk(cfg, ws) && (ws != [] ==> ws[|ws| - 1].start + cfg.window <= lo)
    ensures Total(ws, lo, hi) == 0
    decreases |ws|
  {
    if ws != [] {
      var init := ws[..|ws| - 1];
      assert init != [] ==> ws[|init| - 1 + 1].start >= ws[|init| - 1].start + cfg.window;
      Bygone(cfg, init, lo, hi);
      WithinBound(ws[|ws| - 1].times, lo, hi);
    }
  }

  /** A stretch that starts after a window opened misses at least its first admission. */
  lemma LateStretch(cfg: Config, ws: seq<Opened>, lo: int)
    requires Proper(cfg) && WindowsOk(cfg, ws) && (ws != [] ==> ws[|ws| - 1].start < lo)
    ensures Total(ws, lo, lo + cfg.window) <= cfg.max - 1
  {
    if ws != [] {
      var init, last := ws[..|ws| - 1], ws[|ws| - 1];
      assert init != [] ==> ws[|init| - 1 + 1].start >= ws[|init| - 1].start + cfg.window;
      Bygone(cfg, init, lo, lo + cfg.window);
      WithinBound(last.times, lo, lo + cfg.window);
    }
  }

  /** No half-open stretch of one window's length admits more than twice the limit less one. */
  lemma {:induction false} StretchBound(cfg: Config, ws: seq<Opened>, lo: int)
    requires Proper(cfg) && WindowsOk(cfg, ws)
    ensures Total(ws, lo, lo + cfg.window) <= 2 * cfg.max - 1
    decreases |ws|
  {
    if ws != [] {
      var init, last := ws[..|ws| - 1], ws[|ws| - 1];
      assert init != [] ==> ws[|init| - 1 + 1].start >= ws[|init| - 1].start + cfg.window;
      WithinBound(last.times, lo, lo + cfg.window);
      if last.start >= lo + cfg.window {
        StretchBound(cfg, init, lo);
      } else if last.start < lo {
        LateStretch(cfg, ws, lo);
      } else {
        LateStretch(cfg, init, lo);
      }
    }
  }

  // ---- The bound for the limiter's own runs ----

  /** The cell agrees with the windows opened so far; `t` is the time of the last connection. */
  ghost predicate Tracks(cfg: Config, c: Cell, ws: seq<Opened>, t: int) {
    && WindowsOk(cfg, ws)
    && (ws != [] ==> ws[|ws| - 1].start <= t)
    && match c
       case Cell(Some(w), ban) => ban.None? && ws != [] && w.resetAt == ws[|ws| - 1].start + cfg.window && w.count == |ws[|ws| - 1].times|
       case Cell(None, ban) => ws != [] ==> ban.Some? && ban.value >= ws[|ws| - 1].start + cfg.window
  }

  /** The windows after one more connection. */
  ghost function Extend(cfg: Config, c: Cell, ws: seq<Opened>, now: int): seq<Opened> {
    if !Judge(cfg, c, now).1 then ws
    else if c.window.None? || now >= c.window.value.resetAt || ws == [] then ws + [Opened(now, [now])]
    else ws[..|ws| - 1] + [Opened(ws[|ws| - 1].start, ws[|ws| - 1].times + [now])]
  }

  lemma TracksOn(cfg: Config, c: Cell, ws: seq<Opened>, t: int, now: int)
    requires Proper(cfg) && Tracks(cfg, c, ws, t) && (t <= now || ws == [])
    ensures Tracks(cfg, Judge(cfg, c, now).0, Extend(cfg, c, ws, now), now)
  {
    var ws' := Extend(cfg, c, ws, now);
    if Judge(cfg, c, now).1 {
      forall i | 0 <= i < |ws'| - 1
        ensures ws'[i + 1].start >= ws'[i].start + cfg.window
      {
        if i + 1 < |ws| {
          assert ws[i + 1].start >= ws[i].start + cfg.window;
        }
      }
    }
  }

  lemma WithinSnoc(times: seq<int>, t: int, lo: int, hi: int)
    ensures Within(times + [t], lo, hi) == Within(times, lo, hi) + if lo <= t < hi then 1 else 0
  {
    assert (times + [t])[..|times|] == times;
  }

  lemma TotalSnoc(ws: seq<Opened>, w: Opened, lo: int, hi: int)
    ensures Total(ws + [w], lo, hi) == Total(ws, lo, hi) + Within(w.times, lo, hi)
  {
    assert (ws + [w])[..|ws|] == ws;
  }

  lemma ExtendTotal(cfg: Config, c: Cell, ws: seq<Opened>, now: int, lo: int, hi: int)
    ensures Total(Extend(cfg, c, ws, now), lo, hi) == Total(ws, lo, hi) + if Judge(cfg, c, now).1 && lo <= now < hi then 1 else 0
  {
    if Judge(cfg, c, now).1 {
      if c.window.None? || now >= c.window.value.resetAt || ws == [] {
        TotalSnoc(ws, Opened(now, [now]), lo, hi);
        WithinSnoc([], now, lo, hi);
        assert [] + [now] == [now];
      } else {
        var init, last := ws[..|ws| - 1], ws[|ws| - 1];
        TotalSnoc(init, last, lo, hi);
        assert ws == init + [last];
        TotalSnoc(init, Opened(last.start, last.times + [now]), lo, hi);
        WithinSnoc(last.times, now, lo, hi);
      }
    }
  }

  /** A run of connections from one address, at times that never go back. */
  ghost predicate Run(cfg: Config, cells: seq<Cell>, times: seq<int>) {
    && |cells| == |times| + 1 && cells[0] == Cell(None, None)
    && (forall i, j :: 0 <= i <= j < |times| ==> times[i] <= times[j])
    && (forall i :: 0 <= i < |times| ==> cells[i + 1] == Judge(cfg, cells[i], times[i]).0)
  }

  /** How many of the first n connections were admitted in [lo, hi). */
  function Admitted(cfg: Config, cells: seq<Cell>, times: seq<int>, n: nat, lo: int, hi: int): nat
    requires n <= |times| && n <= |cells|
  {
    if n == 0 then 0
    else Admitted(cfg, cells, times, n - 1, lo, hi) + if Judge(cfg, cells[n - 1], times[n - 1]).1 && lo <= times[n - 1] < hi then 1 else 0
  }

  lemma {:induction false} Windows(cfg: Config, cells: seq<Cell>, times: seq<int>, n: nat, lo: int, hi: int) returns (ws: seq<Opened>)
    requires Proper(cfg) && Run(cfg, cells, times) && n <= |times|
    ensures Tracks(cfg, cells[n], ws, if n == 0 then 0 else times[n - 1]) && (n == 0 ==> ws == [])
    ensures Total(ws, lo, hi) == Admitted(cfg, cells, times, n, lo, hi)
    decreases n
  {
    if n == 0 { return []; }
    var before := Windows(cfg, cells, times, n - 1, lo, hi);
    var t := if n == 1 then 0 else times[n - 2];
    TracksOn(cfg, cells[n - 1], before, t, times[n - 1]);
    ExtendTotal(cfg, cells[n - 1], before, times[n - 1], lo, hi);
    ws := Extend(cfg, cells[n - 1], before, times[n - 1]);
  }

  /** Any half-open interval of one window's length admits fewer than twice the limit, in every run. */
  lemma AdmissionBound(cfg: Config, cells: seq<Cell>, times: seq<int>, lo: int)
    requires Proper(cfg) && Run(cfg, cells, times)
    ensures Admitted(cfg, cells, times, |times|, lo, lo + cfg.window) <= 2 * cfg.max - 1
  {
    var ws := Windows(cfg, cells, times, |times|, lo, lo + cfg.window);
    StretchBound(cfg, ws, lo);
  }

  // ---- The bound is reached ----

  /** n connections at the same time: the cell they leave and how many were admitted. */
  function Burst(cfg: Config, c: Cell, now: int, n: nat): (Cell, nat) {
    if n == 0 then (c, 0)
    else
      var (c1, k) := Burst(cfg, c, now, n - 1);
      var (c2, ok) := Judge(cfg, c1, now);
      (c2, k + if ok then 1 else 0)
  }

  lemma {:induction false} BurstAdmitted(cfg: Config, count: nat, resetAt: int, now: int, n: nat)
    requires now < resetAt && count + n <= cfg.max
    ensures Burst(cfg, Cell(Some(Window(count, resetAt)), None), now, n) == (Cell(Some(Window(count + n, resetAt)), None), n)
    decreases n
  {
    if n > 0 {
      BurstAdmitted(cfg, count, resetAt, now, n - 1);
    }
  }

  lemma {:induction false} BurstOpens(cfg: Config, c: Cell, now: int, n: nat)
    requires Proper(cfg) && c.ban.None? && c.window.Some? && now >= c.window.value.resetAt && 1 <= n <= cfg.max
    ensures Burst(cfg, c, now, n) == (Cell(Some(Window(n, now + cfg.window)), None), n)
    decreases n
  {
    if n > 1 {
      BurstOpens(cfg, c, now, n - 1);
    }
  }

  /** A run that ends with n connections at the same time. */
  lemma {:induction false} BurstRun(cfg: Config, cells: seq<Cell>, times: seq<int>, now: int, n: nat, lo: int, hi: int)
    returns (cells': seq<Cell>, times': seq<int>)
    requires Run(cfg, cells, times) && (times != [] ==> times[|times| - 1] <= now)
    ensures Run(cfg, cells', times') && |times'| == |times| + n && (n > 0 ==> times'[|times'| - 1] == now)
    ensures cells'[|times'|] == Burst(cfg, cells[|times|], now, n).0
    ensures Admitted(cfg, cells', times', |times'|, lo, hi) ==
            Admitted(cfg, cells, times, |times|, lo, hi) + if lo <= now < hi then Burst(cfg, cells[|times|], now, n).1 else 0
    ensures n == 0 ==> times' == times
    decreases n
  {
    if n == 0 { return cells, times; }
    var cs, ts := BurstRun(cfg, cells, times, now, n - 1, lo, hi);
    cells', times' := cs + [Judge(cfg, cs[|ts|], now).0], ts + [now];
    RunSnoc(cfg, cs, ts, now, lo, hi);
  }

  lemma RunSnoc(cfg: Config, cells: seq<Cell>, times: seq<int>, now: int, lo: int, hi: int)
    requires Run(cfg, cells, times) && (times != [] ==> times[|times| - 1] <= now)
    ensures var (c, ok) := Judge(cfg, cells[|times|], now);
            && Run(cfg, cells + [c], times + [now])
            && Admitted(cfg, cells + [c], times + [now], |times| + 1, lo, hi) ==
               Admitted(cfg, cells, times, |times|, lo, hi) + if ok && lo <= now < hi then 1 else 0
  {
    AdmittedPrefix(cfg, cells, times, cells + [Judge(cfg, cells[|times|], now).0], times + [now], |times|, lo, hi);
  }

  lemma {:induction false} AdmittedPrefix(cfg: Config, cells: seq<Cell>, times: seq<int>, cells': seq<Cell>, times': seq<int>, n: nat, lo: int, hi: int)
    requires n <= |times| <= |times'| && |times| <= |cells| <= |cells'| && cells == cells'[..|cells|] && times == times'[..|times|]
    ensures Admitted(cfg, cells', times', n, lo, hi) == Admitted(cfg, cells, times, n, lo, hi)
    decreases n
  {
    if n > 0 {
      AdmittedPrefix(cfg, cells, times, cells', times', n - 1, lo, hi);
    }
  }

  /** The three bursts: one connection opens a window, the rest of its allowance comes at its very end, and a full window follows. */
  lemma BurstsAdmitted(cfg: Config)
    requires Proper(cfg) && cfg.window >= 2
    ensures var (c1, first) := Burst(cfg, Cell(None, None), 0, 1);
            var (c2, late) := Burst(cfg, c1, cfg.window - 1, cfg.max - 1);
            var (_, next) := Burst(cfg, c2, cfg.window, cfg.max);
            first == 1 && late == cfg.max - 1 && next == cfg.max
  {
    assert Burst(cfg, Cell(None, None), 0, 1) == (Cell(Some(Window(1, cfg.window)), None), 1) by {
      assert Burst(cfg, Cell(None, None), 0, 0) == (Cell(None, None), 0);
    }
    BurstAdmitted(cfg, 1, cfg.window, cfg.window - 1, cfg.max - 1);
    BurstOpens(cfg, Cell(Some(Window(cfg.max, cfg.window)), None), cfg.window, cfg.max);
  }

  /** For every limit, and every window of at least two units, there is a run and an interval of one window's length that reach the bound. */
  lemma BoundReached(cfg: Config) returns (cells: seq<Cell>, times: seq<int>, lo: int)
    requires Proper(cfg) && cfg.window >= 2
    ensures Run(cfg, cells, times)
    ensures Admitted(cfg, cells, times, |times|, lo, lo + cfg.window) == 2 * cfg.max - 1
  {
    lo := cfg.window - 1;
    var hi := lo + cfg.window;
    BurstsAdmitted(cfg);
    cells, times := BurstRun(cfg, [Cell(None, None)], [], 0, 1, lo, hi);
    cells, times := BurstRun(cfg, cells, times, cfg.window - 1, cfg.max - 1, lo, hi);
    cells, times := BurstRun(cfg, cells, times, cfg.window, cfg.max, lo, hi);
  }

  /** With a window of a single unit, nothing is left over from the window before: the limit itself is the bound. */
  lemma UnitWindowBound(cfg: Config, cells: seq<Cell>, times: seq<int>, lo: int)
    requires Proper(cfg) && cfg.window == 1 && Run(cfg, cells, times)
    ensures Admitted(cfg, cells, times, |times|, lo, lo + 1) <= cfg.max
  {
    var ws := Windows(cfg, cells, times, |times|, lo, lo + 1);
    UnitStretch(cfg, ws, lo);
  }

  lemma {:induction false} UnitStretch(cfg: Config, ws: seq<Opened>, lo: int)
    requires Proper(cfg) && cfg.window == 1 && WindowsOk(cfg, ws)
    ensures Total(ws, lo, lo + 1) <= cfg.max
    decreases |ws|
  {
    if ws != [] {
      var init, last := ws[..|ws| - 1], ws[|ws| - 1];
      assert init != [] ==> ws[|init| - 1 + 1].start >= ws[|init| - 1].start + cfg.window;
      WithinBound(last.times, lo, lo + 1);
      if last.start > lo {
        UnitStretch(cfg, init, lo);
      } else {
        Bygone(cfg, init, lo, lo + 1);
      }
    }
  }

  // ---- Exactly who is admitted ----

  function Verdict(cfg: Config, cells: seq<Cell>, times: seq<int>, k: nat): bool
    requires k < |times| && k < |cells|
  {
    Judge(cfg, cells[k], times[k]).1
  }

  /** Connection k is admitted as the first of a window. */
  ghost predicate Opens(cfg: Config, cells: seq<Cell>, times: seq<int>, k: nat)
    requires k < |times| && k + 1 < |cells|
  {
    Verdict(cfg, cells, times, k) && cells[k + 1] == Cell(Some(Window(1, times[k] + cfg.window)), None)
  }

  /** The first connection from an address opens a window. */
  lemma FirstOpens(cfg: Config, cells: seq<Cell>, times: seq<int>)
    requires Run(cfg, cells, times) && times != []
    ensures Opens(cfg, cells, times, 0)
  {
  }

  lemma {:induction false} WindowCounts(cfg: Config, cells: seq<Cell>, times: seq<int>, p: nat, q: nat)
    requires Run(cfg, cells, times) && p < q <= |times| && Opens(cfg, cells, times, p)
    requires forall k :: p < k < q ==> times[k] < times[p] + cfg.window && Verdict(cfg, cells, times, k)
    ensures cells[q] == Cell(Some(Window(q - p, times[p] + cfg.window)), None)
    decreases q
  {
    if p + 1 < q {
      WindowCounts(cfg, cells, times, p, q - 1);
      assert Verdict(cfg, cells, times, q - 1);
    }
  }

  /**
   After a connection that opens a window: as long as all are admitted, one that comes after the window's end
   opens the next window, and one within it is admitted exactly if the limit is not reached.
   */
  lemma WindowExactly(cfg: Config, cells: seq<Cell>, times: seq<int>, p: nat, q: nat)
    requires Run(cfg, cells, times) && p < q < |times| && Opens(cfg, cells, times, p)
    requires forall k :: p < k < q ==> times[k] < times[p] + cfg.window && Verdict(cfg, cells, times, k)
    ensures times[q] >= times[p] + cfg.window ==> Opens(cfg, cells, times, q)
    ensures times[q] < times[p] + cfg.window ==> (Verdict(cfg, cells, times, q) <==> q - p < cfg.max)
  {
    WindowCounts(cfg, cells, times, p, q);
  }

  lemma {:induction false} BanStays(cfg: Config, cells: seq<Cell>, times: seq<int>, i: nat, j: nat)
    requires Proper(cfg) && Run(cfg, cells, times) && 0 < i < j <= |times|
    requires Verdict(cfg, cells, times, i - 1) && forall k :: i <= k < j ==> !Verdict(cfg, cells, times, k)
    ensures cells[j] == Cell(None, Some(times[i] + cfg.ban))
    decreases j
  {
    if i + 1 < j {
      BanStays(cfg, cells, times, i, j - 1);
      assert !Verdict(cfg, cells, times, j - 1);
    } else {
      assert !Verdict(cfg, cells, times, i);
    }
  }

  /**
   After the first refusal, at the time of the excess, every connection is refused until the ban is over,
   and the first one from then on is admitted and opens a window.
   */
  lemma BanExactly(cfg: Config, cells: seq<Cell>, times: seq<int>, i: nat, j: nat)
    requires Proper(cfg) && Run(cfg, cells, times) && 0 < i < j < |times|
    requires Verdict(cfg, cells, times, i - 1) && forall k :: i <= k < j ==> !Verdict(cfg, cells, times, k)
    ensures Verdict(cfg, cells, times, j) <==> times[j] >= times[i] + cfg.ban
    ensures Verdict(cfg, cells, times, j) ==> Opens(cfg, cells, times, j)
  {
    BanStays(cfg, cells, times, i, j);
  }
}
