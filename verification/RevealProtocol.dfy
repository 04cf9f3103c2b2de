/** Concurrent callers revealing penalties of a room.

    A final spin, an exit and the timeout job reveal one member's penalties; an expired
    result page reveals those of all members at once.  Each reads the rows and later
    issues one conditional update; steps of different callers may interleave in any
    order.  The module proves that at most one update has an effect on each member's
    rows, that a member's reveal is broadcast at most twice, and exactly when it can be
    broadcast twice. */
module RevealProtocol {
  import opened Roulette
  import Timeline

  datatype Kind =
    | RouletteSpin(memberId: string, spinIndex: int)
    | Exit(memberId: string)
    | TimeoutJob(memberId: string)
    | ExpiredPage

  /** Where a caller stands: before its read; between read and update (affected: the
      members it saw with something left to reveal); between update and broadcast
      (changed: the members whose rows its update changed); finished.  A spin that is
      not the last is passed on without an update. */
  datatype Stage =
    | Waiting
    | Ready(affected: set<string>)
    | Updated(affected: set<string>, changed: set<string>)
    | Done(affected: set<string>, changed: set<string>)
    | Passed
    | Refused

  datatype Caller = Caller(kind: Kind, stage: Stage)

  /** A broadcast of one member's reveal: the caller and the contents with their counts. */
  datatype Broadcast = Broadcast(sender: nat, shown: seq<(string, nat)>)

  /** All members' rows, every caller's stage, and the broadcasts sent for each member. */
  datatype World = World(rows: map<string, seq<PenaltyRow>>, callers: seq<Caller>, sent: map<string, seq<Broadcast>>)

  function UnrevealedRows(rows: seq<PenaltyRow>): nat {
    if rows == [] then 0 else (if rows[0].isRevealed then 0 else 1) + UnrevealedRows(rows[1..])
  }

  function CountSum(rows: seq<PenaltyRow>, revealed: bool): nat {
    if rows == [] then 0
    else (if rows[0].isRevealed == revealed then rows[0].count else 0) + CountSum(rows[1..], revealed)
  }

  /** Contents and counts of the revealed rows. */
  function Shown(rows: seq<PenaltyRow>): seq<(string, nat)> {
    if rows == [] then []
    else (if rows[0].isRevealed then [(rows[0].content, rows[0].count)] else []) + Shown(rows[1..])
  }

  /** The shown items are those of the revealed rows, in the rows' order. */
  lemma {:induction false} ShownOf(a: seq<PenaltyRow>, row: PenaltyRow)
    ensures Shown(a + [row]) == Shown(a) + if row.isRevealed then [(row.content, row.count)] else []
    ensures Shown([]) == []
  {
    var own := if row.isRevealed then [(row.content, row.count)] else [];
    if a == [] {
      assert a + [row] == [row] && Shown([row]) == own + Shown([]);
    } else {
      var first := if a[0].isRevealed then [(a[0].content, a[0].count)] else [];
      assert (a + [row])[1..] == a[1..] + [row];
      ShownOf(a[1..], row);
      Associates(first, Shown(a[1..]), own);
    }
  }

  // ----- steps -----

  predicate Targets(kind: Kind, m: string) { kind.ExpiredPage? || kind.memberId == m }

  function RowsOf(rows: map<string, seq<PenaltyRow>>, m: string): seq<PenaltyRow> {
    if m in rows then rows[m] else []
  }

  /** The members a caller could reveal something of. */
  function Left(kind: Kind, rows: map<string, seq<PenaltyRow>>): set<string> {
    set m | m in rows && Targets(kind, m) && !AllRevealed(rows[m])
  }

  function AfterRead(kind: Kind, rows: map<string, seq<PenaltyRow>>): Stage {
    match kind
    case RouletteSpin(m, k) =>
      var own := RowsOf(rows, m);
      if own != [] && AllRevealed(own) then Refused
      else if k < 1 || k > TotalSpins(own) then Refused
      else if k < TotalSpins(own) then Passed
      else Ready(Left(kind, rows))
    case Exit(m) => if AllRevealed(RowsOf(rows, m)) then Refused else Ready(Left(kind, rows))
    case TimeoutJob(_) => Ready(Left(kind, rows))
    case ExpiredPage => Ready(Left(kind, rows))
  }

  function UpdatedRows(kind: Kind, rows: map<string, seq<PenaltyRow>>): map<string, seq<PenaltyRow>> {
    map m | m in rows :: if Targets(kind, m) then RevealAll(rows[m]) else rows[m]
  }

  /** Whether a caller broadcasts for a member after its update: the timeout job never; a
      spin or an exit if it changed the member's rows; an expired page if it changed any
      rows at all and had seen something left to reveal for the member. */
  predicate Sends(kind: Kind, affected: set<string>, changed: set<string>, m: string) {
    match kind
    case TimeoutJob(_) => false
    case ExpiredPage => changed != {} && m in affected
    case _ => m in changed
  }

  /** The payload: a spin or exit reads the rows again and sends the revealed ones, an
      expired page sends all rows it loaded. */
  function Payload(kind: Kind, rows: seq<PenaltyRow>): seq<(string, nat)> {
    if kind.ExpiredPage? then Shown(RevealAll(rows)) else Shown(rows)
  }

  function WithBroadcasts(w: World, p: nat, kind: Kind, affected: set<string>, changed: set<string>)
    : map<string, seq<Broadcast>>
    requires w.sent.Keys == w.rows.Keys
  {
    map m | m in w.sent ::
      if Sends(kind, affected, changed, m) then w.sent[m] + [Broadcast(p, Payload(kind, w.rows[m]))] else w.sent[m]
  }

  predicate WellFormed(w: World) { w.sent.Keys == w.rows.Keys }

  /** The next step of one caller. */
  function Step(w: World, p: nat): (r: World)
    requires WellFormed(w) && p < |w.callers|
    ensures WellFormed(r) && |r.callers| == |w.callers| && r.rows.Keys == w.rows.Keys
  {
    var c := w.callers[p];
    match c.stage
    case Waiting => w.(callers := w.callers[p := c.(stage := AfterRead(c.kind, w.rows))])
    case Ready(affected) =>
      w.(rows := UpdatedRows(c.kind, w.rows),
         callers := w.callers[p := c.(stage := Updated(affected, Left(c.kind, w.rows)))])
    case Updated(affected, changed) =>
      w.(callers := w.callers[p := c.(stage := Done(affected, changed))],
         sent := WithBroadcasts(w, p, c.kind, affected, changed))
    case _ => w
  }

  predicate ValidSchedule(schedule: seq<nat>, n: nat) {
    forall i :: 0 <= i < |schedule| ==> schedule[i] < n
  }

  /** Runs a schedule: each entry lets the named caller take its next step. */
  function Execute(w: World, schedule: seq<nat>): (r: World)
    requires WellFormed(w) && ValidSchedule(schedule, |w.callers|)
    ensures WellFormed(r) && |r.callers| == |w.callers| && r.rows.Keys == w.rows.Keys
    decreases |schedule|
  {
    if schedule == [] then w else Execute(Step(w, schedule[0]), schedule[1..])
  }

  predicate Initial(w: World) {
    && WellFormed(w)
    && (forall m :: m in w.sent ==> w.sent[m] == [])
    && forall p :: 0 <= p < |w.callers| ==> w.callers[p].stage == Waiting
  }

  // ----- rows -----

  /** Same rows up to reveal flags, and no flag went back. */
  predicate OnlyRevealed(before: seq<PenaltyRow>, after: seq<PenaltyRow>) {
    && |before| == |after|
    && forall i :: 0 <= i < |before| ==>
         after[i].content == before[i].content && after[i].count == before[i].count
         && (before[i].isRevealed ==> after[i].isRevealed)
  }

  predicate OnlyRevealedAll(before: map<string, seq<PenaltyRow>>, after: map<string, seq<PenaltyRow>>) {
    before.Keys == after.Keys && forall m :: m in before ==> OnlyRevealed(before[m], after[m])
  }

  lemma {:induction false} UnrevealedIff(rows: seq<PenaltyRow>)
    ensures UnrevealedRows(rows) == 0 <==> AllRevealed(rows)
  {
    if rows != [] {
      UnrevealedIff(rows[1..]);
      assert rows == [rows[0]] + rows[1..];
      if AllRevealed(rows[1..]) && rows[0].isRevealed {
        assert AllRevealed(rows);
      }
    }
  }

  lemma RevealAllOnly(start: seq<PenaltyRow>, rows: seq<PenaltyRow>)
    requires OnlyRevealed(start, rows)
    ensures RevealAll(rows) == RevealAll(start)
    ensures OnlyRevealed(start, RevealAll(rows)) && AllRevealed(RevealAll(rows))
    ensures AllRevealed(rows) ==> rows == RevealAll(start)
    ensures AllRevealed(start) ==> AllRevealed(rows)
  {
  }

  lemma {:induction false} FlagsSplitTotal(rows: seq<PenaltyRow>)
    ensures CountSum(rows, true) + CountSum(rows, false) == TotalSpins(rows)
  {
    if rows != [] {
      FlagsSplitTotal(rows[1..]);
    }
  }

  lemma {:induction false} TotalIgnoresFlags(a: seq<PenaltyRow>, b: seq<PenaltyRow>)
    requires OnlyRevealed(a, b)
    ensures TotalSpins(a) == TotalSpins(b)
  {
    if a != [] {
      TotalIgnoresFlags(a[1..], b[1..]);
    }
  }

  // ----- the invariant -----

  predicate HasUpdated(s: Stage) { s.Updated? || s.Done? }

  /** The caller's update changed the member's rows. */
  predicate Effective(s: Stage, m: string) { HasUpdated(s) && m in s.changed }

  /** What the spin number of a caller that got as far as an update must have been. */
  predicate IsFinalSpin(kind: Kind, rows: map<string, seq<PenaltyRow>>) {
    kind.RouletteSpin? ==> 1 <= kind.spinIndex == TotalSpins(RowsOf(rows, kind.memberId))
  }

  /** One caller, compared with the rows at the start: what it saw and changed was
      unrevealed then and is its business; what it updated is revealed now; it misses
      nothing that is still unrevealed. */
  predicate CallerFits(start: map<string, seq<PenaltyRow>>, w: World, c: Caller) {
    match c.stage
    case Ready(affected) =>
      && affected <= Left(c.kind, start) && IsFinalSpin(c.kind, start)
      && Left(c.kind, w.rows) <= affected
    case Updated(affected, changed) => UpdateFits(start, w, c.kind, affected, changed)
    case Done(affected, changed) => UpdateFits(start, w, c.kind, affected, changed)
    case _ => true
  }

  predicate UpdateFits(start: map<string, seq<PenaltyRow>>, w: World, kind: Kind, affected: set<string>,
                       changed: set<string>)
  {
    && changed <= affected <= Left(kind, start) && IsFinalSpin(kind, start)
    && Left(kind, w.rows) == {}
  }

  predicate CallersFit(start: map<string, seq<PenaltyRow>>, w: World) {
    forall p :: 0 <= p < |w.callers| ==> CallerFits(start, w, w.callers[p])
  }

  predicate Changes(w: World, p: nat, m: string)
    requires p < |w.callers|
  {
    Effective(w.callers[p].stage, m)
  }

  /** No member's rows are changed by two callers. */
  ghost predicate OneChanger(w: World) {
    forall p, q, m :: 0 <= p < |w.callers| && 0 <= q < |w.callers| && Changes(w, p, m) && Changes(w, q, m) ==> p == q
  }

  /** No two pages change anything. */
  predicate OneChangingPage(w: World) {
    forall p, q :: 0 <= p < |w.callers| && 0 <= q < |w.callers| && ChangingPage(w, p) && ChangingPage(w, q) ==> p == q
  }

  predicate IsChanged(w: World, m: string) { exists p :: 0 <= p < |w.callers| && Changes(w, p, m) }

  /** Rows that differ from the start have been changed by somebody. */
  predicate ChangesExplained(start: map<string, seq<PenaltyRow>>, w: World) {
    forall m :: m in w.rows && m in start && w.rows[m] != start[m] ==> IsChanged(w, m)
  }

  ghost predicate ChangesFit(start: map<string, seq<PenaltyRow>>, w: World) {
    OneChanger(w) && OneChangingPage(w) && ChangesExplained(start, w)
  }

  predicate ChangingPage(w: World, p: nat)
    requires p < |w.callers|
  {
    var c := w.callers[p];
    c.kind.ExpiredPage? && HasUpdated(c.stage) && c.stage.changed != {}
  }

  /** A caller that is finished and is one of those who broadcast for the member. */
  predicate HasSent(w: World, p: nat, m: string)
    requires p < |w.callers|
  {
    var c := w.callers[p];
    c.stage.Done? && Sends(c.kind, c.stage.affected, c.stage.changed, m)
  }

  predicate IsSender(broadcasts: seq<Broadcast>, p: nat) {
    exists i :: 0 <= i < |broadcasts| && broadcasts[i].sender == p
  }

  predicate DistinctSenders(broadcasts: seq<Broadcast>) {
    forall i, j :: 0 <= i < j < |broadcasts| ==> broadcasts[i].sender != broadcasts[j].sender
  }

  /** The broadcasts for a member come from exactly the finished callers who send, once
      each, and show every row. */
  predicate SentFits(start: map<string, seq<PenaltyRow>>, w: World, m: string)
    requires WellFormed(w) && m in w.rows && m in start
  {
    && DistinctSenders(w.sent[m])
    && (forall i :: 0 <= i < |w.sent[m]| ==>
          w.sent[m][i].sender < |w.callers| && HasSent(w, w.sent[m][i].sender, m)
          && w.sent[m][i].shown == Shown(RevealAll(start[m])))
    && (forall p :: 0 <= p < |w.callers| && HasSent(w, p, m) ==> IsSender(w.sent[m], p))
  }

  ghost predicate Invariant(start: map<string, seq<PenaltyRow>>, w: World) {
    && WellFormed(w) && OnlyRevealedAll(start, w.rows)
    && CallersFit(start, w) && ChangesFit(start, w)
    && forall m :: m in w.rows ==> SentFits(start, w, m)
  }

  // ----- every step keeps the invariant -----

  lemma LeftShrinks(kind: Kind, before: map<string, seq<PenaltyRow>>, after: map<string, seq<PenaltyRow>>)
    requires OnlyRevealedAll(before, after)
    ensures Left(kind, after) <= Left(kind, before)
  {
    forall m | m in Left(kind, after) ensures !AllRevealed(before[m]) {
      RevealAllOnly(before[m], after[m]);
    }
  }

  lemma UpdateReveals(start: map<string, seq<PenaltyRow>>, kind: Kind, rows: map<string, seq<PenaltyRow>>)
    requires OnlyRevealedAll(start, rows)
    ensures OnlyRevealedAll(start, UpdatedRows(kind, rows)) && OnlyRevealedAll(rows, UpdatedRows(kind, rows))
    ensures Left(kind, UpdatedRows(kind, rows)) == {}
    ensures forall m :: m in rows && m !in Left(kind, rows) ==> UpdatedRows(kind, rows)[m] == rows[m]
  {
    forall m | m in rows
      ensures OnlyRevealed(start[m], RevealAll(rows[m])) && OnlyRevealed(rows[m], RevealAll(rows[m]))
      ensures AllRevealed(rows[m]) ==> RevealAll(rows[m]) == rows[m]
    {
      RevealAllOnly(start[m], rows[m]);
    }
  }

  lemma FinalSpinFromStart(start: map<string, seq<PenaltyRow>>, rows: map<string, seq<PenaltyRow>>, kind: Kind)
    requires OnlyRevealedAll(start, rows)
    ensures IsFinalSpin(kind, start) <==> IsFinalSpin(kind, rows)
  {
    if kind.RouletteSpin? && kind.memberId in rows {
      TotalIgnoresFlags(start[kind.memberId], rows[kind.memberId]);
    }
  }

  /** A caller that does not move keeps fitting while rows are only revealed. */
  lemma OthersFit(start: map<string, seq<PenaltyRow>>, w: World, w': World, c: Caller)
    requires CallerFits(start, w, c) && OnlyRevealedAll(w.rows, w'.rows)
    ensures CallerFits(start, w', c)
  {
    LeftShrinks(c.kind, w.rows, w'.rows);
  }

  /** The sends of a member do not change while nobody is finished. */
  lemma SentStays(start: map<string, seq<PenaltyRow>>, w: World, w': World, m: string)
    requires WellFormed(w) && WellFormed(w') && m in w.rows && m in start && w'.rows.Keys == w.rows.Keys
    requires SentFits(start, w, m) && w'.sent[m] == w.sent[m] && |w'.callers| == |w.callers|
    requires forall q :: 0 <= q < |w.callers| ==> (HasSent(w', q, m) <==> HasSent(w, q, m))
    ensures SentFits(start, w', m)
  {
  }

  lemma ReadKeeps(start: map<string, seq<PenaltyRow>>, w: World, p: nat)
    requires p < |w.callers| && Invariant(start, w) && w.callers[p].stage.Waiting?
    ensures Invariant(start, Step(w, p))
  {
    var w' := Step(w, p);
    var kind := w.callers[p].kind;
    LeftShrinks(kind, start, w.rows);
    FinalSpinFromStart(start, w.rows, kind);
    forall q | 0 <= q < |w'.callers| ensures CallerFits(start, w', w'.callers[q]) {
      if q != p {
        OthersFit(start, w, w', w.callers[q]);
      }
    }
    ChangesStay(start, w, w', p);
    forall m | m in w'.rows ensures SentFits(start, w', m) {
      SentStays(start, w, w', m);
    }
  }

  /** Who changed what stays as it is when a caller moves without an update. */
  lemma ChangesStay(start: map<string, seq<PenaltyRow>>, w: World, w': World, p: nat)
    requires ChangesFit(start, w) && |w'.callers| == |w.callers| && w'.rows == w.rows && p < |w.callers|
    requires forall q :: 0 <= q < |w.callers| && q != p ==> w'.callers[q] == w.callers[q]
    requires w'.callers[p].kind == w.callers[p].kind
    requires HasUpdated(w'.callers[p].stage) == HasUpdated(w.callers[p].stage)
    requires HasUpdated(w.callers[p].stage) ==> w'.callers[p].stage.changed == w.callers[p].stage.changed
    ensures ChangesFit(start, w')
  {
    forall q | 0 <= q < |w.callers| ensures ChangingPage(w', q) == ChangingPage(w, q) {
    }
    forall q, m | 0 <= q < |w.callers| ensures Changes(w', q, m) == Changes(w, q, m) {
    }
    forall m | m in w'.rows && m in start && w'.rows[m] != start[m] ensures IsChanged(w', m) {
      var q :| 0 <= q < |w.callers| && Changes(w, q, m);
      assert Changes(w', q, m);
    }
  }

  /** Whoever changed a member's rows has left nothing there to reveal. */
  lemma ChangedIsRevealed(start: map<string, seq<PenaltyRow>>, w: World, q: nat, m: string)
    requires OnlyRevealedAll(start, w.rows) && CallersFit(start, w) && q < |w.callers| && Changes(w, q, m)
    ensures m in start && Targets(w.callers[q].kind, m) && !AllRevealed(start[m]) && AllRevealed(w.rows[m])
    ensures IsFinalSpin(w.callers[q].kind, start)
    ensures w.callers[q].kind.ExpiredPage? ==> forall o :: o in w.rows ==> AllRevealed(w.rows[o])
  {
    var c := w.callers[q];
    assert CallerFits(start, w, c);
    assert m in Left(c.kind, start) && m !in Left(c.kind, w.rows);
    if c.kind.ExpiredPage? {
      forall o | o in w.rows ensures AllRevealed(w.rows[o]) {
        assert o !in Left(c.kind, w.rows);
      }
    }
  }

  lemma UpdateOneChanger(start: map<string, seq<PenaltyRow>>, w: World, p: nat)
    requires p < |w.callers| && Invariant(start, w) && w.callers[p].stage.Ready?
    ensures OneChanger(Step(w, p))
  {
    var w' := Step(w, p);
    forall q, m | 0 <= q < |w.callers| && q != p && Changes(w', q, m) ensures Changes(w, q, m) && !Changes(w', p, m) {
      ChangedIsRevealed(start, w, q, m);
    }
  }

  lemma UpdateOneChangingPage(start: map<string, seq<PenaltyRow>>, w: World, p: nat)
    requires p < |w.callers| && Invariant(start, w) && w.callers[p].stage.Ready?
    ensures OneChangingPage(Step(w, p))
  {
    var w' := Step(w, p);
    forall q | 0 <= q < |w.callers| && q != p && ChangingPage(w', q)
      ensures ChangingPage(w, q) && !ChangingPage(w', p)
    {
      var m :| m in w.callers[q].stage.changed;
      assert Changes(w, q, m);
      ChangedIsRevealed(start, w, q, m);
    }
  }

  lemma StillChanged(w: World, p: nat, m: string)
    requires WellFormed(w) && p < |w.callers| && w.callers[p].stage.Ready? && IsChanged(w, m)
    ensures IsChanged(Step(w, p), m)
  {
    var q :| 0 <= q < |w.callers| && Changes(w, q, m);
    assert Changes(Step(w, p), q, m);
  }

  lemma UpdateExplained(start: map<string, seq<PenaltyRow>>, w: World, p: nat)
    requires p < |w.callers| && Invariant(start, w) && w.callers[p].stage.Ready?
    ensures ChangesExplained(start, Step(w, p))
  {
    var w' := Step(w, p);
    UpdateReveals(start, w.callers[p].kind, w.rows);
    forall m | m in w'.rows && m in start && w'.rows[m] != start[m] ensures IsChanged(w', m) {
      if w.rows[m] != start[m] {
        StillChanged(w, p, m);
      } else {
        assert Changes(w', p, m);
      }
    }
  }

  lemma UpdateKeeps(start: map<string, seq<PenaltyRow>>, w: World, p: nat)
    requires p < |w.callers| && Invariant(start, w) && w.callers[p].stage.Ready?
    ensures Invariant(start, Step(w, p))
  {
    var w' := Step(w, p);
    var kind := w.callers[p].kind;
    UpdateReveals(start, kind, w.rows);
    UpdateOneChanger(start, w, p);
    UpdateOneChangingPage(start, w, p);
    UpdateExplained(start, w, p);
    assert CallerFits(start, w, w.callers[p]);
    forall q | 0 <= q < |w'.callers| ensures CallerFits(start, w', w'.callers[q]) {
      if q != p {
        OthersFit(start, w, w', w.callers[q]);
      }
    }
    forall m | m in w'.rows ensures SentFits(start, w', m) {
      SentStays(start, w, w', m);
    }
  }

  /** What a sender sends is every row. */
  lemma PayloadIsAll(start: map<string, seq<PenaltyRow>>, w: World, p: nat, m: string)
    requires p < |w.callers| && OnlyRevealedAll(start, w.rows) && CallersFit(start, w) && m in w.rows
    requires w.callers[p].stage.Updated?
    requires Sends(w.callers[p].kind, w.callers[p].stage.affected, w.callers[p].stage.changed, m)
    ensures Payload(w.callers[p].kind, w.rows[m]) == Shown(RevealAll(start[m]))
  {
    RevealAllOnly(start[m], w.rows[m]);
    if !w.callers[p].kind.ExpiredPage? {
      ChangedIsRevealed(start, w, p, m);
    }
  }

  lemma BroadcastSent(start: map<string, seq<PenaltyRow>>, w: World, p: nat, m: string)
    requires p < |w.callers| && Invariant(start, w) && w.callers[p].stage.Updated? && m in w.rows
    ensures SentFits(start, Step(w, p), m)
  {
    var w' := Step(w, p);
    var c := w.callers[p];
    assert SentFits(start, w, m);
    assert forall q :: 0 <= q < |w.callers| && q != p ==> (HasSent(w', q, m) <==> HasSent(w, q, m));
    if Sends(c.kind, c.stage.affected, c.stage.changed, m) {
      PayloadIsAll(start, w, p, m);
      SenderAdded(start, w, w', p, m);
    } else {
      SentStays(start, w, w', m);
    }
  }

  lemma SenderAdded(start: map<string, seq<PenaltyRow>>, w: World, w': World, p: nat, m: string)
    requires WellFormed(w) && WellFormed(w') && m in w.rows && m in start && w'.rows.Keys == w.rows.Keys
    requires p < |w.callers| == |w'.callers| && SentFits(start, w, m)
    requires w'.sent[m] == w.sent[m] + [Broadcast(p, Shown(RevealAll(start[m])))]
    requires !HasSent(w, p, m) && HasSent(w', p, m)
    requires forall q :: 0 <= q < |w.callers| && q != p ==> (HasSent(w', q, m) <==> HasSent(w, q, m))
    ensures SentFits(start, w', m)
  {
    var before, after := w.sent[m], w'.sent[m];
    forall i | 0 <= i < |before|
      ensures after[i] == before[i] && before[i].sender != p && HasSent(w', before[i].sender, m)
    {
      assert HasSent(w, before[i].sender, m);
    }
    forall q | 0 <= q < |w'.callers| && HasSent(w', q, m) ensures IsSender(after, q) {
      if q == p {
        assert after[|before|].sender == p;
      } else {
        assert IsSender(before, q);
        var i :| 0 <= i < |before| && before[i].sender == q;
        assert after[i].sender == q;
      }
    }
  }

  lemma BroadcastKeeps(start: map<string, seq<PenaltyRow>>, w: World, p: nat)
    requires p < |w.callers| && Invariant(start, w) && w.callers[p].stage.Updated?
    ensures Invariant(start, Step(w, p))
  {
    var w' := Step(w, p);
    assert CallerFits(start, w, w.callers[p]);
    forall q | 0 <= q < |w'.callers| ensures CallerFits(start, w', w'.callers[q]) {
      if q != p {
        assert CallerFits(start, w, w.callers[q]);
      }
    }
    ChangesStay(start, w, w', p);
    forall m | m in w'.rows ensures SentFits(start, w', m) {
      BroadcastSent(start, w, p, m);
    }
  }

  lemma StepKeeps(start: map<string, seq<PenaltyRow>>, w: World, p: nat)
    requires p < |w.callers| && Invariant(start, w)
    ensures Invariant(start, Step(w, p))
  {
    match w.callers[p].stage {
      case Waiting => ReadKeeps(start, w, p);
      case Ready(_) => UpdateKeeps(start, w, p);
      case Updated(_, _) => BroadcastKeeps(start, w, p);
      case _ =>
    }
  }

  lemma {:induction false} ExecuteKeeps(start: map<string, seq<PenaltyRow>>, w: World, schedule: seq<nat>)
    requires Invariant(start, w) && ValidSchedule(schedule, |w.callers|)
    ensures Invariant(start, Execute(w, schedule))
    decreases |schedule|
  {
    if schedule != [] {
      StepKeeps(start, w, schedule[0]);
      ExecuteKeeps(start, Step(w, schedule[0]), schedule[1..]);
    }
  }

  lemma InitialInvariant(w: World)
    requires Initial(w)
    ensures Invariant(w.rows, w)
  {
  }

  // ----- reveals -----

  /** From any state on, whatever callers do next: contents and counts stay, and a
      revealed row stays revealed. */
  lemma {:induction false} FlagsNeverGoBack(w: World, schedule: seq<nat>)
    requires WellFormed(w) && ValidSchedule(schedule, |w.callers|)
    ensures OnlyRevealedAll(w.rows, Execute(w, schedule).rows)
    decreases |schedule|
  {
    if schedule != [] {
      var next := Step(w, schedule[0]);
      UpdateReveals(w.rows, w.callers[schedule[0]].kind, w.rows);
      FlagsNeverGoBack(next, schedule[1..]);
      OnlyRevealedTransitive(w.rows, next.rows, Execute(next, schedule[1..]).rows);
    }
  }

  lemma OnlyRevealedTransitive(a: map<string, seq<PenaltyRow>>, b: map<string, seq<PenaltyRow>>,
                               c: map<string, seq<PenaltyRow>>)
    requires OnlyRevealedAll(a, b) && OnlyRevealedAll(b, c)
    ensures OnlyRevealedAll(a, c)
  {
    forall m | m in a ensures OnlyRevealed(a[m], c[m]) {
      assert forall i :: 0 <= i < |a[m]| ==> b[m][i].content == a[m][i].content && c[m][i].content == b[m][i].content;
    }
  }

  /** Over every interleaving of any number of callers: each member's contents and counts
      stay, revealed and unrevealed counts add up to the assigned total, at most one
      caller's update changes the member's rows, and if they changed, one did. */
  lemma RevealedAtMostOnce(w: World, schedule: seq<nat>, m: string)
    requires Initial(w) && ValidSchedule(schedule, |w.callers|) && m in w.rows
    ensures var e := Execute(w, schedule);
            && OnlyRevealed(w.rows[m], e.rows[m])
            && CountSum(e.rows[m], true) + CountSum(e.rows[m], false) == TotalSpins(w.rows[m])
            && (forall p, q ::
                  0 <= p < |e.callers| && 0 <= q < |e.callers| && Changes(e, p, m) && Changes(e, q, m) ==> p == q)
            && (e.rows[m] != w.rows[m] <==> IsChanged(e, m))
  {
    InitialInvariant(w);
    ExecuteKeeps(w.rows, w, schedule);
    var e := Execute(w, schedule);
    FlagsSplitTotal(e.rows[m]);
    TotalIgnoresFlags(w.rows[m], e.rows[m]);
    ChangedIff(w.rows, e, m);
  }

  /** A member's rows differ from the start exactly if some update changed them. */
  lemma ChangedIff(start: map<string, seq<PenaltyRow>>, w: World, m: string)
    requires Invariant(start, w) && m in w.rows && m in start
    ensures w.rows[m] != start[m] <==> IsChanged(w, m)
  {
    if IsChanged(w, m) {
      var p :| 0 <= p < |w.callers| && Changes(w, p, m);
      ChangedIsRevealed(start, w, p, m);
    }
  }

  /** Reveals are never lost: from the first finished update that concerns a member on,
      every row of the member is revealed, and if there was something to reveal, somebody's
      update did it. */
  lemma FinishedUpdateRevealsAll(w: World, schedule: seq<nat>, p: nat, m: string)
    requires Initial(w) && ValidSchedule(schedule, |w.callers|) && m in w.rows
    requires p < |w.callers| && HasUpdated(Execute(w, schedule).callers[p].stage)
    requires Targets(Execute(w, schedule).callers[p].kind, m)
    ensures var e := Execute(w, schedule);
            && e.rows[m] == RevealAll(w.rows[m])
            && (!AllRevealed(w.rows[m]) <==> IsChanged(e, m))
  {
    InitialInvariant(w);
    ExecuteKeeps(w.rows, w, schedule);
    var e := Execute(w, schedule);
    UpdatedIsRevealed(w.rows, e, p, m);
    RevealedAtMostOnce(w, schedule, m);
  }

  lemma UpdatedIsRevealed(start: map<string, seq<PenaltyRow>>, w: World, p: nat, m: string)
    requires OnlyRevealedAll(start, w.rows) && CallersFit(start, w) && m in w.rows
    requires p < |w.callers| && HasUpdated(w.callers[p].stage) && Targets(w.callers[p].kind, m)
    ensures w.rows[m] == RevealAll(start[m])
    ensures AllRevealed(start[m]) <==> w.rows[m] == start[m]
  {
    assert CallerFits(start, w, w.callers[p]);
    assert m !in Left(w.callers[p].kind, w.rows);
    RevealAllOnly(start[m], w.rows[m]);
  }

  // ----- broadcasts -----

  /** Once nobody is between update and broadcast, the caller who revealed a member's rows
      has broadcast it, unless it is the timeout job. */
  lemma EffectiveCallerHasSent(w: World, schedule: seq<nat>, p: nat, m: string)
    requires Initial(w) && ValidSchedule(schedule, |w.callers|) && m in w.rows
    requires forall q :: 0 <= q < |w.callers| ==> !Execute(w, schedule).callers[q].stage.Updated?
    requires p < |w.callers| && Changes(Execute(w, schedule), p, m)
    ensures IsSender(Execute(w, schedule).sent[m], p) <==> !Execute(w, schedule).callers[p].kind.TimeoutJob?
  {
    InitialInvariant(w);
    ExecuteKeeps(w.rows, w, schedule);
    ChangerSends(w.rows, Execute(w, schedule), p, m);
  }

  lemma ChangerSends(start: map<string, seq<PenaltyRow>>, w: World, p: nat, m: string)
    requires Invariant(start, w) && m in w.rows && p < |w.callers| && w.callers[p].stage.Done? && Changes(w, p, m)
    ensures IsSender(w.sent[m], p) <==> !w.callers[p].kind.TimeoutJob?
  {
    assert CallerFits(start, w, w.callers[p]);
    assert SentFits(start, w, m);
    assert HasSent(w, p, m) <==> !w.callers[p].kind.TimeoutJob?;
    if IsSender(w.sent[m], p) {
      var i :| 0 <= i < |w.sent[m]| && w.sent[m][i].sender == p;
      assert HasSent(w, w.sent[m][i].sender, m);
    }
  }

  /** Two different senders for a member: one revealed the member's rows, the other is a
      page that revealed somebody else's. */
  // ----- a caller that gets its turns -----

  /** The caller is one that reveals the member: the timeout job, an expired page, an exit,
      or the spin with the last number. */
  predicate Reveals(start: map<string, seq<PenaltyRow>>, kind: Kind, m: string) {
    match kind
    case RouletteSpin(o, k) => o == m && 1 <= k == TotalSpins(RowsOf(start, m))
    case Exit(o) => o == m
    case TimeoutJob(o) => o == m
    case ExpiredPage => true
  }

  /** Such a caller passes nothing on, and is refused only if nothing is left. */
  predicate RefusedRightly(w: World, p: nat, m: string)
    requires p < |w.callers|
  {
    && !w.callers[p].stage.Passed?
    && (w.callers[p].stage.Refused? ==>
          !w.callers[p].kind.TimeoutJob? && !w.callers[p].kind.ExpiredPage? && AllRevealed(RowsOf(w.rows, m)))
  }

  /** What the others do only reveals more. */
  lemma MoreRevealed(w: World, q: nat, m: string)
    requires WellFormed(w) && q < |w.callers| && AllRevealed(RowsOf(w.rows, m))
    ensures AllRevealed(RowsOf(Step(w, q).rows, m))
  {
  }

  lemma ReadRefusedRightly(start: map<string, seq<PenaltyRow>>, w: World, p: nat, m: string)
    requires OnlyRevealedAll(start, w.rows) && p < |w.callers| && Reveals(start, w.callers[p].kind, m)
    ensures !AfterRead(w.callers[p].kind, w.rows).Passed?
    ensures AfterRead(w.callers[p].kind, w.rows).Refused? ==>
              !w.callers[p].kind.TimeoutJob? && !w.callers[p].kind.ExpiredPage? && AllRevealed(RowsOf(w.rows, m))
  {
    if m in w.rows {
      TotalIgnoresFlags(start[m], w.rows[m]);
    }
  }

  lemma StepRefusedRightly(start: map<string, seq<PenaltyRow>>, w: World, q: nat, p: nat, m: string)
    requires WellFormed(w) && OnlyRevealedAll(start, w.rows) && q < |w.callers| && p < |w.callers|
    requires Reveals(start, w.callers[p].kind, m) && RefusedRightly(w, p, m)
    ensures Step(w, q).callers[p].kind == w.callers[p].kind && RefusedRightly(Step(w, q), p, m)
  {
    if AllRevealed(RowsOf(w.rows, m)) {
      MoreRevealed(w, q, m);
    }
    ReadRefusedRightly(start, w, p, m);
  }

  function Turns(schedule: seq<nat>, p: nat): nat {
    if schedule == [] then 0 else (if schedule[0] == p then 1 else 0) + Turns(schedule[1..], p)
  }

  /** How many turns a caller needs until its update is behind it. */
  function TurnsLeft(s: Stage): nat { if s.Waiting? then 2 else if s.Ready? then 1 else 0 }

  lemma {:induction false} TurnsBringUpdate(start: map<string, seq<PenaltyRow>>, w: World, schedule: seq<nat>, p: nat,
                                            m: string)
    requires Invariant(start, w) && ValidSchedule(schedule, |w.callers|) && p < |w.callers|
    requires Reveals(start, w.callers[p].kind, m) && RefusedRightly(w, p, m)
    requires Turns(schedule, p) >= TurnsLeft(w.callers[p].stage)
    ensures AllRevealed(RowsOf(Execute(w, schedule).rows, m))
    ensures Execute(w, schedule).callers[p].stage.Refused? ==>
              !w.callers[p].kind.TimeoutJob? && !w.callers[p].kind.ExpiredPage?
    decreases |schedule|
  {
    if schedule == [] {
      UpdatedOrRefused(start, w, p, m);
    } else {
      StepKeeps(start, w, schedule[0]);
      StepRefusedRightly(start, w, schedule[0], p, m);
      TurnTaken(w, schedule[0], p);
      TurnsBringUpdate(start, Step(w, schedule[0]), schedule[1..], p, m);
    }
  }

  lemma UpdatedOrRefused(start: map<string, seq<PenaltyRow>>, w: World, p: nat, m: string)
    requires Invariant(start, w) && p < |w.callers|
    requires Reveals(start, w.callers[p].kind, m) && RefusedRightly(w, p, m) && TurnsLeft(w.callers[p].stage) == 0
    ensures AllRevealed(RowsOf(w.rows, m))
  {
    assert CallerFits(start, w, w.callers[p]);
    if HasUpdated(w.callers[p].stage) && m in w.rows {
      assert m !in Left(w.callers[p].kind, w.rows);
    }
  }

  lemma TurnTaken(w: World, q: nat, p: nat)
    requires WellFormed(w) && q < |w.callers| && p < |w.callers|
    ensures q == p ==> TurnsLeft(Step(w, q).callers[p].stage) <= Timeline.Max(0, TurnsLeft(w.callers[p].stage) - 1)
    ensures q != p ==> Step(w, q).callers[p] == w.callers[p]
  {
  }

  /** Under every interleaving a caller that reveals the member and gets two turns leaves
      nothing unrevealed; the timeout job and an expired page are never refused. */
  lemma TwoTurnsReveal(w: World, schedule: seq<nat>, p: nat, m: string)
    requires Initial(w) && ValidSchedule(schedule, |w.callers|) && p < |w.callers|
    requires Reveals(w.rows, w.callers[p].kind, m) && Turns(schedule, p) >= 2
    ensures AllRevealed(RowsOf(Execute(w, schedule).rows, m))
    ensures w.callers[p].kind.TimeoutJob? || w.callers[p].kind.ExpiredPage? ==>
              !Execute(w, schedule).callers[p].stage.Refused?
  {
    InitialInvariant(w);
    TurnsBringUpdate(w.rows, w, schedule, p, m);
  }

  /** A spin with a number that is not the last, or an exit with nothing left, changes
      nothing, however often it gets a turn. */
  lemma HarmlessRead(w: World, p: nat)
    requires WellFormed(w) && p < |w.callers| && w.callers[p].stage.Waiting?
    ensures var kind, after := w.callers[p].kind, Step(w, p);
            && after.rows == w.rows && after.sent == w.sent
            && (kind.RouletteSpin? && kind.spinIndex != TotalSpins(RowsOf(w.rows, kind.memberId)) ==>
                  after.callers[p].stage.Refused? || after.callers[p].stage.Passed?)
            && (kind.RouletteSpin? && !AllRevealed(RowsOf(w.rows, kind.memberId)) ==>
                  1 <= kind.spinIndex < TotalSpins(RowsOf(w.rows, kind.memberId)) ==> after.callers[p].stage.Passed?)
            && (kind.Exit? && AllRevealed(RowsOf(w.rows, kind.memberId)) ==> after.callers[p].stage.Refused?)
            && (after.callers[p].stage.Refused? || after.callers[p].stage.Passed? ==> Step(after, p) == after)
  {
  }

  lemma SendersDiffer(start: map<string, seq<PenaltyRow>>, w: World, m: string, i: nat, j: nat)
    requires Invariant(start, w) && m in w.rows && i < j < |w.sent[m]|
    ensures w.sent[m][i].sender < |w.callers| && w.sent[m][j].sender < |w.callers|
    ensures Changes(w, w.sent[m][i].sender, m) != Changes(w, w.sent[m][j].sender, m)
    ensures ChangingPage(w, w.sent[m][i].sender) != ChangingPage(w, w.sent[m][j].sender)
  {
    var p, q := w.sent[m][i].sender, w.sent[m][j].sender;
    assert SentFits(start, w, m);
    assert HasSent(w, p, m) && HasSent(w, q, m) && p != q;
    assert Changes(w, p, m) || ChangingPage(w, p);
    assert Changes(w, q, m) || ChangingPage(w, q);
  }

  /** Nobody's reveal is broadcast more than twice, and both broadcasts show every row. */
  lemma BroadcastAtMostTwice(w: World, schedule: seq<nat>, m: string)
    requires Initial(w) && ValidSchedule(schedule, |w.callers|) && m in w.rows
    ensures |Execute(w, schedule).sent[m]| <= 2
    ensures DistinctSenders(Execute(w, schedule).sent[m])
    ensures forall i :: 0 <= i < |Execute(w, schedule).sent[m]| ==>
              Execute(w, schedule).sent[m][i].shown == Shown(RevealAll(w.rows[m]))
  {
    InitialInvariant(w);
    ExecuteKeeps(w.rows, w, schedule);
    var e := Execute(w, schedule);
    assert SentFits(w.rows, e, m);
    if |e.sent[m]| > 2 {
      SendersDiffer(w.rows, e, m, 0, 1);
      SendersDiffer(w.rows, e, m, 0, 2);
      SendersDiffer(w.rows, e, m, 1, 2);
    }
  }

  predicate IsPage(w: World, p: nat)
    requires p < |w.callers|
  {
    w.callers[p].kind.ExpiredPage?
  }

  /** A caller that reveals the member's rows for itself and broadcasts: an exit or the
      final spin. */
  predicate IsOwnReveal(w: World, q: nat, m: string)
    requires q < |w.callers|
  {
    var kind := w.callers[q].kind;
    (kind.Exit? || kind.RouletteSpin?) && kind.memberId == m && IsFinalSpin(kind, w.rows)
  }

  /** When two broadcasts of a member's reveal are possible: the member and another one
      have something left to reveal, there is an expired page, and the member exits or
      takes the final spin. */
  predicate TwicePossible(w: World, m: string) {
    && m in w.rows && !AllRevealed(w.rows[m])
    && (exists o :: o in w.rows && o != m && !AllRevealed(w.rows[o]))
    && (exists p :: 0 <= p < |w.callers| && IsPage(w, p))
    && (exists q :: 0 <= q < |w.callers| && IsOwnReveal(w, q, m))
  }

  lemma {:induction false} KindsStay(w: World, schedule: seq<nat>)
    requires WellFormed(w) && ValidSchedule(schedule, |w.callers|)
    ensures forall p :: 0 <= p < |w.callers| ==> Execute(w, schedule).callers[p].kind == w.callers[p].kind
    decreases |schedule|
  {
    if schedule != [] {
      KindsStay(Step(w, schedule[0]), schedule[1..]);
      assert forall p :: 0 <= p < |w.callers| ==> Step(w, schedule[0]).callers[p].kind == w.callers[p].kind;
    }
  }

  /** What a page that broadcasts for a member without having revealed it shows about the
      start. */
  lemma PageSawTwo(start: map<string, seq<PenaltyRow>>, w: World, p: nat, m: string)
    requires Invariant(start, w) && p < |w.callers| && HasSent(w, p, m) && !Changes(w, p, m)
    ensures w.callers[p].kind.ExpiredPage? && m in start && !AllRevealed(start[m])
    ensures exists o :: o in start && o != m && !AllRevealed(start[o])
  {
    var c := w.callers[p];
    assert CallerFits(start, w, c);
    var o :| o in c.stage.changed;
    assert o in Left(c.kind, start) && m in Left(c.kind, start);
  }

  lemma RevealerIsOwn(start: map<string, seq<PenaltyRow>>, w: World, q: nat, m: string)
    requires Invariant(start, w) && q < |w.callers| && HasSent(w, q, m) && Changes(w, q, m) && !ChangingPage(w, q)
    ensures var kind := w.callers[q].kind;
            (kind.Exit? || kind.RouletteSpin?) && kind.memberId == m && IsFinalSpin(kind, start)
  {
    ChangedIsRevealed(start, w, q, m);
  }

  /** Which callers sent twice, and what that says about the start. */
  lemma TwoSenders(start: map<string, seq<PenaltyRow>>, w: World, m: string) returns (p: nat, q: nat)
    requires Invariant(start, w) && m in w.rows && |w.sent[m]| == 2
    ensures p < |w.callers| && w.callers[p].kind.ExpiredPage?
    ensures !AllRevealed(start[m]) && exists o :: o in start && o != m && !AllRevealed(start[o])
    ensures q < |w.callers| && var kind := w.callers[q].kind;
            (kind.Exit? || kind.RouletteSpin?) && kind.memberId == m && IsFinalSpin(kind, start)
  {
    assert SentFits(start, w, m);
    SendersDiffer(start, w, m, 0, 1);
    var first, second := w.sent[m][0].sender, w.sent[m][1].sender;
    assert HasSent(w, first, m) && HasSent(w, second, m);
    if Changes(w, first, m) {
      p, q := second, first;
    } else {
      p, q := first, second;
    }
    PageSawTwo(start, w, p, m);
    RevealerIsOwn(start, w, q, m);
  }

  lemma TwiceNeeds(w: World, schedule: seq<nat>, m: string)
    requires Initial(w) && ValidSchedule(schedule, |w.callers|) && m in w.rows
    requires |Execute(w, schedule).sent[m]| == 2
    ensures TwicePossible(w, m)
  {
    InitialInvariant(w);
    ExecuteKeeps(w.rows, w, schedule);
    KindsStay(w, schedule);
    var p, q := TwoSenders(w.rows, Execute(w, schedule), m);
    assert IsPage(w, p) && IsOwnReveal(w, q, m);
  }

  // ----- two broadcasts -----

  lemma {:induction false} ExecuteConcat(w: World, a: seq<nat>, b: seq<nat>)
    requires WellFormed(w) && ValidSchedule(a, |w.callers|) && ValidSchedule(b, |w.callers|)
    ensures ValidSchedule(a + b, |w.callers|)
    ensures Execute(w, a + b) == Execute(Execute(w, a), b)
    decreases |a|
  {
    if a == [] {
      assert a + b == b;
    } else {
      assert (a + b)[1..] == a[1..] + b;
      ExecuteConcat(Step(w, a[0]), a[1..], b);
    }
  }

  lemma ExecuteOne(w: World, p: nat)
    requires WellFormed(w) && p < |w.callers|
    ensures Execute(w, [p]) == Step(w, p)
  {
    assert Execute(w, [p]) == Execute(Step(w, p), []);
  }

  /** One caller taking n steps in a row. */
  function Alone(p: nat, n: nat): seq<nat> { seq(n, _ => p) }

  lemma AloneSteps(w: World, p: nat)
    requires WellFormed(w) && p < |w.callers|
    ensures ValidSchedule(Alone(p, 1), |w.callers|) && Execute(w, Alone(p, 1)) == Step(w, p)
    ensures ValidSchedule(Alone(p, 2), |w.callers|) && Execute(w, Alone(p, 2)) == Step(Step(w, p), p)
    ensures ValidSchedule(Alone(p, 3), |w.callers|) && Execute(w, Alone(p, 3)) == Step(Step(Step(w, p), p), p)
  {
    var second, third := Step(w, p), Step(Step(w, p), p);
    ExecuteOne(w, p);
    ExecuteOne(second, p);
    ExecuteOne(third, p);
    ExecuteConcat(w, [p], [p]);
    ExecuteConcat(w, [p] + [p], [p]);
    assert Alone(p, 1) == [p] && Alone(p, 2) == [p] + [p] && Alone(p, 3) == [p] + [p] + [p];
  }

  /** A page's read: it will see everyone with something left. */
  lemma PageReads(w: World, p: nat)
    requires WellFormed(w) && p < |w.callers| && IsPage(w, p) && w.callers[p].stage == Waiting
    ensures ValidSchedule(Alone(p, 1), |w.callers|)
    ensures Execute(w, Alone(p, 1))
         == w.(callers := w.callers[p := Caller(ExpiredPage, Ready(Left(ExpiredPage, w.rows)))])
  {
    AloneSteps(w, p);
  }

  /** An exit or final spin in one go reveals its member, and nobody else, and broadcasts. */
  lemma OwnRevealAlone(w: World, q: nat, m: string)
    requires WellFormed(w) && q < |w.callers| && IsOwnReveal(w, q, m) && w.callers[q].stage == Waiting
    requires m in w.rows && !AllRevealed(w.rows[m])
    ensures ValidSchedule(Alone(q, 3), |w.callers|)
    ensures var e := Execute(w, Alone(q, 3));
            && e.rows == w.rows[m := RevealAll(w.rows[m])]
            && (forall r :: 0 <= r < |w.callers| && r != q ==> e.callers[r] == w.callers[r])
            && |e.sent[m]| == |w.sent[m]| + 1
  {
    var kind := w.callers[q].kind;
    AloneSteps(w, q);
    var w1 := Step(w, q);
    assert w1 == w.(callers := w.callers[q := Caller(kind, Ready(Left(kind, w.rows)))]);
    var w2 := Step(w1, q);
    assert w2.rows == w.rows[m := RevealAll(w.rows[m])];
    assert w2.callers[q].stage == Updated(Left(kind, w.rows), Left(kind, w.rows)) && m in Left(kind, w.rows);
  }

  /** A page that updates after that: it changes the other member's rows and broadcasts
      for everyone it saw. */
  lemma PageFinishes(w: World, p: nat, affected: set<string>, m: string, o: string)
    requires WellFormed(w) && p < |w.callers| && w.callers[p] == Caller(ExpiredPage, Ready(affected))
    requires m in w.rows && m in affected && o in w.rows && !AllRevealed(w.rows[o])
    ensures ValidSchedule(Alone(p, 2), |w.callers|)
    ensures |Execute(w, Alone(p, 2)).sent[m]| == |w.sent[m]| + 1
  {
    AloneSteps(w, p);
    var w1 := Step(w, p);
    assert w1.callers[p].stage == Updated(affected, Left(ExpiredPage, w.rows)) && o in Left(ExpiredPage, w.rows);
  }

  lemma ExecuteInThree(w: World, a: seq<nat>, b: seq<nat>, c: seq<nat>)
    requires WellFormed(w)
    requires ValidSchedule(a, |w.callers|) && ValidSchedule(b, |w.callers|) && ValidSchedule(c, |w.callers|)
    ensures ValidSchedule(a + (b + c), |w.callers|)
    ensures Execute(w, a + (b + c)) == Execute(Execute(Execute(w, a), b), c)
  {
    ExecuteConcat(Execute(w, a), b, c);
    ExecuteConcat(w, a, b + c);
  }

  /** The page reads, the other caller goes through, the page finishes: two broadcasts. */
  lemma PageAroundReveal(w: World, m: string, o: string, p: nat, q: nat)
    requires Initial(w) && m in w.rows && !AllRevealed(w.rows[m]) && o in w.rows && o != m && !AllRevealed(w.rows[o])
    requires p < |w.callers| && IsPage(w, p) && q < |w.callers| && IsOwnReveal(w, q, m)
    ensures var schedule := Alone(p, 1) + (Alone(q, 3) + Alone(p, 2));
            ValidSchedule(schedule, |w.callers|) && |Execute(w, schedule).sent[m]| == 2
  {
    PageReads(w, p);
    var read := Execute(w, Alone(p, 1));
    OwnRevealAlone(read, q, m);
    var revealed := Execute(read, Alone(q, 3));
    assert revealed.callers[p] == Caller(ExpiredPage, Ready(Left(ExpiredPage, w.rows)));
    assert revealed.rows[o] == w.rows[o];
    PageFinishes(revealed, p, Left(ExpiredPage, w.rows), m, o);
    ExecuteInThree(w, Alone(p, 1), Alone(q, 3), Alone(p, 2));
  }

  /** Some schedule of the given callers broadcasts a member's reveal twice if and only if
      the member and another one have something left to reveal, there is an expired page,
      and the member exits or takes the final spin. */
  lemma BroadcastTwiceIff(w: World, m: string)
    requires Initial(w) && m in w.rows
    ensures (exists schedule :: ValidSchedule(schedule, |w.callers|) && |Execute(w, schedule).sent[m]| == 2)
            <==> TwicePossible(w, m)
  {
    if TwicePossible(w, m) {
      var o :| o in w.rows && o != m && !AllRevealed(w.rows[o]);
      var p :| 0 <= p < |w.callers| && IsPage(w, p);
      var q :| 0 <= q < |w.callers| && IsOwnReveal(w, q, m);
      PageAroundReveal(w, m, o, p, q);
    }
    forall schedule | ValidSchedule(schedule, |w.callers|) && |Execute(w, schedule).sent[m]| == 2
      ensures TwicePossible(w, m)
    {
      TwiceNeeds(w, schedule, m);
    }
  }
}
