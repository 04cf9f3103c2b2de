/** The session timeline: focus windows, session length, and the client's clock.

    The backend derives focus windows and job times from a plan's minutes; the
    client derives round and phase from elapsed time by division.  This module
    proves that the two derivations describe the same timeline. */
module Timeline {

  const MS_PER_MIN := 60 * 1000

  /** Timer fields of a rule template. */
  datatype Plan = Plan(focusMin: nat, breakMin: nat, rounds: nat)

  /** Bounds the request validator puts on a plan. */
  predicate WithinRequestBounds(p: Plan) {
    1 <= p.focusMin <= 600 && 1 <= p.breakMin <= 120 && 1 <= p.rounds <= 20
  }

  function Max(a: int, b: int): int { if a < b then b else a }

  function Min(a: int, b: int): int { if a < b then a else b }

  // ----- server side -----

  function FocusMs(p: Plan): nat { p.focusMin * 60 * 1000 }

  function CycleMs(p: Plan): nat { (p.focusMin + p.breakMin) * 60 * 1000 }

  /** Planned session length: no break follows the last round. */
  function SessionMs(p: Plan): nat {
    (p.focusMin * p.rounds + p.breakMin * Max(0, p.rounds - 1)) * 60 * 1000
  }

  /** The focus windows of a session in milliseconds: one per round, a cycle apart. */
  datatype FocusGrid = FocusGrid(start: int, focusMs: nat, cycleMs: nat, rounds: nat)

  type Grid = g: FocusGrid | g.focusMs <= g.cycleMs witness FocusGrid(0, 0, 0, 0)

  function GridOf(p: Plan, start: int): Grid { FocusGrid(start, FocusMs(p), CycleMs(p), p.rounds) }

  /** Start of focus window i, counted up cycle by cycle; see FocusStartProduct. */
  function FocusStart(g: Grid, i: nat): int {
    if i == 0 then g.start else FocusStart(g, i - 1) + g.cycleMs
  }

  function FocusEnd(g: Grid, i: nat): int { FocusStart(g, i) + g.focusMs }

  predicate InWindow(g: Grid, i: nat, t: int) { FocusStart(g, i) <= t < FocusEnd(g, i) }

  /** Millisecond t lies in some focus window of the session. */
  ghost predicate InFocus(g: Grid, t: int) {
    exists i: nat :: i < g.rounds && InWindow(g, i, t)
  }

  /** The services compute window starts by multiplication. */
  lemma {:induction false} FocusStartProduct(g: Grid, i: nat)
    ensures FocusStart(g, i) == g.start + i * g.cycleMs
  {
    if i > 0 {
      FocusStartProduct(g, i - 1);
      MulStep(i, g.cycleMs);
    }
  }

  lemma MulMonotone(i: int, j: int, c: nat)
    requires i <= j
    ensures i * c <= j * c
  {
    assert (j - i) * c >= 0;
    assert (j - i) * c == j * c - i * c;
  }

  lemma MulStep(n: int, c: int)
    ensures n * c == (n - 1) * c + c
  {
  }

  /** Windows come in order and never overlap. */
  lemma {:induction false} WindowsOrdered(g: Grid, i: nat, j: nat)
    requires i < j
    ensures FocusEnd(g, i) <= FocusStart(g, i + 1) <= FocusStart(g, j)
  {
    if i + 1 < j {
      WindowsOrdered(g, i, j - 1);
    }
  }

  lemma CyclesPlusFocus(focus: nat, pause: nat, r: nat)
    requires r >= 1
    ensures (focus * r + pause * (r - 1)) * 60 * 1000 == (r - 1) * ((focus + pause) * 60 * 1000) + focus * 60 * 1000
  {
    var k := r - 1;
    assert focus * r == focus * k + focus;
    assert k * (focus + pause) == focus * k + pause * k;
    assert k * ((focus + pause) * 60000) == (k * (focus + pause)) * 60000;
  }

  lemma CyclesInMinutes(focus: nat, pause: nat, r: nat)
    ensures (focus + pause) * r * 60 * 1000 == r * ((focus + pause) * 60 * 1000)
  {
    assert r * ((focus + pause) * 60000) == (r * (focus + pause)) * 60000;
  }

  /** The planned end of the session is the end of its last focus window. */
  lemma SessionEndsWithLastWindow(p: Plan, start: int)
    requires p.rounds >= 1
    ensures start + SessionMs(p) == FocusEnd(GridOf(p, start), p.rounds - 1)
  {
    FocusStartProduct(GridOf(p, start), p.rounds - 1);
    CyclesPlusFocus(p.focusMin, p.breakMin, p.rounds);
  }

  // ----- client side -----

  /** What the timer screen derives from the elapsed milliseconds. */
  datatype ClientView = ClientView(round: int, isFocus: bool, remainingMs: int)

  function ClientTotalMs(p: Plan): int {
    var focusMs := p.focusMin * 60 * 1000;
    var breakMs := p.breakMin * 60 * 1000;
    focusMs * p.rounds + breakMs * Max(0, p.rounds - 1)
  }

  function ClientClock(p: Plan, elapsed: int): ClientView {
    var focusMs := p.focusMin * 60 * 1000;
    var breakMs := p.breakMin * 60 * 1000;
    var cycleMs := focusMs + breakMs;
    var clamped := Min(Max(0, elapsed), ClientTotalMs(p));
    var lastRoundStartMs := cycleMs * Max(0, p.rounds - 1);
    var isLastRound := if cycleMs > 0 then clamped >= lastRoundStartMs else true;
    var round := if isLastRound then p.rounds else clamped / cycleMs + 1;
    var cycleElapsed := if isLastRound then clamped - lastRoundStartMs else clamped % cycleMs;
    var isFocus := isLastRound || cycleElapsed < focusMs;
    ClientView(round, isFocus, if isFocus then focusMs - cycleElapsed else cycleMs - cycleElapsed)
  }

  lemma {:induction false} ClientTotalIsSessionMs(p: Plan)
    ensures ClientTotalMs(p) == SessionMs(p)
  {
    var m := Max(0, p.rounds - 1);
    assert (p.focusMin * 60 * 1000) * p.rounds == (p.focusMin * p.rounds) * 60 * 1000;
    assert (p.breakMin * 60 * 1000) * m == (p.breakMin * m) * 60 * 1000;
  }

  lemma DivisionBounds(e: nat, c: int)
    requires c > 0
    ensures e / c * c <= e < (e / c + 1) * c
    ensures e % c == e - e / c * c
  {
    assert e == c * (e / c) + e % c;
  }

  lemma QuotientBelow(e: nat, c: int, k: nat)
    requires c > 0 && e < k * c
    ensures e / c < k
  {
    DivisionBounds(e, c);
    if k <= e / c {
      MulMonotone(k, e / c, c);
      assert false;
    }
  }

  /** The clock inside the session, where clamping has no effect, for a focus length
      f, a cycle length c and a number of cycles before the last round. */
  function UnclampedClock(f: int, c: int, last: int, e: int): ClientView
    requires c > 0
  {
    if e >= last * c then ClientView(last + 1, true, f - (e - last * c))
    else ClientView(e / c + 1, e % c < f, (if e % c < f then f else c) - e % c)
  }

  lemma UnclampedPlacement(f: nat, c: int, last: nat, e: int)
    requires f <= c && 0 < c && 0 <= e < last * c + f
    ensures var v := UnclampedClock(f, c, last, e);
            && 1 <= v.round <= last + 1
            && (v.round - 1) * c <= e
            && (v.round <= last ==> e < v.round * c)
            && (v.isFocus <==> e < (v.round - 1) * c + f)
            && (v.isFocus ==> v.remainingMs == (v.round - 1) * c + f - e)
            && (!v.isFocus ==> v.round <= last && v.remainingMs == v.round * c - e)
  {
    if e < last * c {
      DivisionBounds(e, c);
      QuotientBelow(e, c, last);
      var q := e / c;
      assert (q + 1) * c == q * c + c;
    }
  }

  lemma ClientClockInside(p: Plan, e: int)
    requires p.rounds >= 1 && 0 <= e < SessionMs(p)
    ensures CycleMs(p) > 0
    ensures SessionMs(p) == (p.rounds - 1) * CycleMs(p) + FocusMs(p)
    ensures ClientClock(p, e) == UnclampedClock(FocusMs(p), CycleMs(p), p.rounds - 1, e)
  {
    ClientTotalIsSessionMs(p);
    SessionEndsWithLastWindow(p, 0);
    FocusStartProduct(GridOf(p, 0), p.rounds - 1);
    assert CycleMs(p) == 0 ==> (p.rounds - 1) * CycleMs(p) == 0;
    assert CycleMs(p) * (p.rounds - 1) == (p.rounds - 1) * CycleMs(p);
  }

  /** Where an instant of the session lies: in the round the client shows, between
      that round's focus start and the next round's. */
  lemma ClientRound(p: Plan, e: int)
    requires p.rounds >= 1 && 0 <= e < SessionMs(p)
    ensures var v := ClientClock(p, e);
            && 1 <= v.round <= p.rounds
            && FocusStart(GridOf(p, 0), v.round - 1) <= e
            && (v.round < p.rounds ==> e < FocusStart(GridOf(p, 0), v.round))
            && (v.isFocus <==> e < FocusEnd(GridOf(p, 0), v.round - 1))
            && (v.isFocus ==> v.remainingMs == FocusEnd(GridOf(p, 0), v.round - 1) - e)
            && (!v.isFocus ==> v.round < p.rounds && v.remainingMs == FocusStart(GridOf(p, 0), v.round) - e)
  {
    ClientClockInside(p, e);
    UnclampedPlacement(FocusMs(p), CycleMs(p), p.rounds - 1, e);
    var v := ClientClock(p, e);
    FocusStartProduct(GridOf(p, 0), v.round - 1);
    FocusStartProduct(GridOf(p, 0), v.round);
  }

  /** The client's round and phase agree with the server's focus windows at every
      instant of the session, and the countdown runs to that phase's boundary. */
  lemma ClientAgreesWithServer(p: Plan, e: int)
    requires p.rounds >= 1 && 0 <= e < SessionMs(p)
    ensures var v := ClientClock(p, e);
            && 1 <= v.round <= p.rounds
            && (v.isFocus <==> InWindow(GridOf(p, 0), v.round - 1, e))
            && (v.isFocus <==> InFocus(GridOf(p, 0), e))
            && v.remainingMs > 0
            && e + v.remainingMs
               == (if v.isFocus then FocusEnd(GridOf(p, 0), v.round - 1) else FocusStart(GridOf(p, 0), v.round))
  {
    ClientRound(p, e);
    var v := ClientClock(p, e);
    if InFocus(GridOf(p, 0), e) && !v.isFocus {
      var i: nat :| i < p.rounds && InWindow(GridOf(p, 0), i, e);
      if i < v.round - 1 {
        WindowsOrdered(GridOf(p, 0), i, v.round - 1);
      } else if v.round - 1 < i {
        WindowsOrdered(GridOf(p, 0), v.round - 1, i);
        if v.round < i { WindowsOrdered(GridOf(p, 0), v.round, i); }
      }
      assert false;
    }
  }

  /** The round an instant belongs to is determined by the focus starts around it. */
  lemma RoundUnique(p: Plan, e: int, a: nat, b: nat)
    requires FocusStart(GridOf(p, 0), a) <= e && e < FocusStart(GridOf(p, 0), b + 1)
    ensures a <= b
  {
    if b < a {
      WindowsOrdered(GridOf(p, 0), b, a);
      assert false;
    }
  }

  /** Nothing changes on the client's screen before the countdown reaches zero. */
  lemma PhaseStableUntilBoundary(p: Plan, e: int, later: int)
    requires p.rounds >= 1 && 0 <= e < SessionMs(p)
    requires e <= later < e + ClientClock(p, e).remainingMs
    ensures later < SessionMs(p)
    ensures ClientClock(p, later).round == ClientClock(p, e).round
    ensures ClientClock(p, later).isFocus == ClientClock(p, e).isFocus
  {
    ClientAgreesWithServer(p, e);
    ClientRound(p, e);
    SessionEndsWithLastWindow(p, 0);
    var v := ClientClock(p, e);
    var r := v.round - 1;
    var last := p.rounds - 1;
    if r < last { WindowsOrdered(GridOf(p, 0), r, last); }
    assert FocusStart(GridOf(p, 0), last) <= FocusEnd(GridOf(p, 0), last);
    assert later < SessionMs(p);
    ClientRound(p, later);
    var w := ClientClock(p, later);
    if r < last { RoundUnique(p, later, w.round - 1, r); }
    if w.round - 1 < last { RoundUnique(p, later, r, w.round - 1); }
  }

  /** At the boundary the phase flips, unless the session is over. */
  lemma PhaseFlipsAtBoundary(p: Plan, e: int)
    requires WithinRequestBounds(p) && 0 <= e < SessionMs(p)
    ensures var v := ClientClock(p, e);
            var boundary := e + v.remainingMs;
            if boundary < SessionMs(p) then ClientClock(p, boundary).isFocus == !v.isFocus
            else boundary == SessionMs(p) && v.round == p.rounds
  {
    ClientAgreesWithServer(p, e);
    ClientRound(p, e);
    SessionEndsWithLastWindow(p, 0);
    var v := ClientClock(p, e);
    var boundary := e + v.remainingMs;
    var last := p.rounds - 1;
    if v.round - 1 < last {
      WindowsOrdered(GridOf(p, 0), v.round - 1, last);
    }
    if boundary < SessionMs(p) {
      ClientAgreesWithServer(p, boundary);
      if v.isFocus {
        BreakStartNotInFocus(p, v.round - 1);
      } else {
        assert InWindow(GridOf(p, 0), v.round, boundary);
      }
    }
  }

  /** The instant a focus window ends belongs to no window. */
  lemma BreakStartNotInFocus(p: Plan, i: nat)
    requires p.breakMin >= 1
    ensures !InFocus(GridOf(p, 0), FocusEnd(GridOf(p, 0), i))
  {
    if j: nat :| j < p.rounds && InWindow(GridOf(p, 0), j, FocusEnd(GridOf(p, 0), i)) {
      if j < i { WindowsOrdered(GridOf(p, 0), j, i); }
      if i < j { WindowsOrdered(GridOf(p, 0), i, j); }
      assert false;
    }
  }
}
