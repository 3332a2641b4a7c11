/** Where the turn token is: the loader may pass it on before its turn is over, or never in
    a slot, and what it sets is the CPU that begins the next slot. */
module LoaderSignal {
  import opened Wrappers
  import opened Kernel
  import opened Serial
  import opened Protocol
  import opened ProtocolProofs
  import opened ProtocolRuns

  /** Whether the loader has signalled in this slot, and at which wait it last got the turn. */
  datatype Past = Past(signalled: bool, entered: LoaderWait)

  /** After action `a` in state `c`. */
  function PastAfter(c: Conc, a: Action, h: Past): (p: Past) {
    if a == LoaderMoves && c.ld.LWait? then h.(entered := c.ld.at)
    else if a == LoaderMoves
            && (c.ld.LFirstSignal? || c.ld.LInnerSignal? || c.ld.LOuterSignal? || c.ld.LEndSignal?) then
      h.(signalled := true)
    else if a == TimerMoves && c.timer.TReset? then h.(signalled := false)
    else h
  }

  /** After the actions `acts`. */
  ghost function PastOf(f: Config, c: Conc, h: Past, acts: seq<Action>): (p: Past)
    requires ConfigOk(f) && Shape(f, c) && After(f, c, acts).Some?
    decreases |acts|
  {
    if acts == [] then h
    else
      var r := Act(f, c, acts[0]).value;
      ActKeepsShape(f, c, acts[0], r);
      PastOf(f, r, PastAfter(c, acts[0], h), acts[1..])
  }

  const NO_PAST := Past(false, First)

  /** The token is at the highest active CPU, or at -1 when there is none. */
  predicate TokenOnTop(c: Conc) {
    && -1 <= c.turn < |c.active| && (c.turn >= 0 ==> c.active[c.turn])
    && forall i :: c.turn < i < |c.active| ==> !c.active[i]
  }

  /** The token follows the sequential program until the CPUs are through; then it is at -1
      until the loader signals, and on top from there to the end of the slot. */
  ghost predicate TokenInv(c: Conc, h: Past) {
    if c.serial.turn >= 0 then c.turn == c.serial.turn && !h.signalled
    else if h.signalled then TokenOnTop(c)
    else c.turn == -1
  }

  /** Where the loader has signalled: at once after its first wait and after a wait for a
      start time, else when it has published or has nothing more to load. A slot in which it
      finds that the next process must wait has no signal. */
  ghost predicate SignalInv(c: Conc, h: Past) {
    && (c.serial.loader && c.serial.turn >= -1 && !LoaderInTurn(c.ld) ==> !h.signalled)
    && match c.ld
       case LFirstSignal => !h.signalled && h.entered == First
       case LInnerSignal => !h.signalled && h.entered == Inner
       case LHead => h.entered != Inner && h.signalled == (h.entered == First)
       case LEndSignal => h.entered != Inner && h.signalled == (h.entered == First)
       case LCheck => h.signalled == (h.entered != Outer)
       case LAdd => h.signalled == (h.entered != Outer)
       case LOuterSignal => h.signalled == (h.entered != Outer)
       case LSetDone(outer) => h.signalled == (outer || h.entered != Outer)
       case LFinish => h.signalled
       case _ => true
  }

  /** A CPU outside its turn changes nothing that the token depends on. */
  lemma CpuOutsideTurn(f: Config, c: Conc, id: nat, r: Conc)
    requires ConfigOk(f) && Shape(f, c) && id < f.cpus && CpuAct(f, c, id) == Some(r)
    ensures r.ld == c.ld
    ensures !CpuInTurn(c.cpu[id]) ==> r.serial == c.serial && r.turn == c.turn && r.active == c.active
  {
  }

  lemma CpuInsideTurn(f: Config, c: Conc, id: nat, r: Conc)
    requires ConfigOk(f) && Inv(f, c) && Inv(f, r) && id < f.cpus && CpuAct(f, c, id) == Some(r)
    requires CpuInTurn(c.cpu[id])
    ensures c.serial.turn >= 0
    ensures if r.serial.turn >= 0 then r.turn == r.serial.turn else r.turn == -1
  {
    InTurnMeansTurn(f, c, id);
  }

  lemma CpuKeepsToken(f: Config, c: Conc, id: nat, r: Conc, h: Past)
    requires ConfigOk(f) && Inv(f, c) && Inv(f, r) && id < f.cpus && CpuAct(f, c, id) == Some(r)
    requires TokenInv(c, h) && SignalInv(c, h)
    ensures TokenInv(r, h) && SignalInv(r, h)
  {
    CpuOutsideTurn(f, c, id, r);
    if CpuInTurn(c.cpu[id]) {
      CpuInsideTurn(f, c, id, r);
    }
  }

  lemma LoaderMovesToken(f: Config, c: Conc, r: Conc)
    requires ConfigOk(f) && Shape(f, c) && LoaderAct(f, c) == Some(r)
    ensures r.active == c.active
    ensures r.serial == c.serial || (LoaderInTurn(c.ld) && r.serial == Step(f, c.serial))
    ensures r.turn == if c.ld.LFirstSignal? || c.ld.LInnerSignal? || c.ld.LOuterSignal? || c.ld.LEndSignal?
                      then SignalNext(c.active, -1) else c.turn
  {
  }

  lemma LoaderKeepsToken(f: Config, c: Conc, r: Conc, h: Past)
    requires ConfigOk(f) && Inv(f, c) && LoaderAct(f, c) == Some(r) && TokenInv(c, h)
    ensures TokenInv(r, PastAfter(c, LoaderMoves, h))
  {
    LoaderMovesToken(f, c, r);
    if LoaderInTurn(c.ld) {
      LoaderInTurnMeansTurn(f, c);
      StepMoves(f, c.serial);
    }
  }

  lemma LoaderKeepsSignal(f: Config, c: Conc, r: Conc, h: Past)
    requires ConfigOk(f) && Inv(f, c) && Inv(f, r) && LoaderAct(f, c) == Some(r)
    requires TokenInv(c, h) && SignalInv(c, h)
    ensures SignalInv(r, PastAfter(c, LoaderMoves, h))
  {
    if LoaderInTurn(c.ld) {
      LoaderInTurnMeansTurn(f, c);
    }
  }

  lemma TimerOutsideReset(f: Config, c: Conc, r: Conc)
    requires ConfigOk(f) && Shape(f, c) && TimerAct(f, c) == Some(r)
    ensures r.ld == c.ld && r.active == c.active
    ensures if c.timer.TReset? then r.serial == Step(f, c.serial) && r.turn == Highest(c.active)
            else r.serial == c.serial && r.turn == c.turn
  {
  }

  lemma TimerKeepsToken(f: Config, c: Conc, r: Conc, h: Past)
    requires ConfigOk(f) && Inv(f, c) && TimerAct(f, c) == Some(r) && TokenInv(c, h) && SignalInv(c, h)
    ensures TokenInv(r, PastAfter(c, TimerMoves, h)) && SignalInv(r, PastAfter(c, TimerMoves, h))
  {
    TimerOutsideReset(f, c, r);
    if c.timer.TReset? {
      SettledMeansOver(f, c);
      LoaderIsOut(f, c);
    }
  }

  lemma LoaderIsOut(f: Config, c: Conc)
    requires ConfigOk(f) && Inv(f, c) && c.timer.TReset?
    ensures c.ld.LBlocked? || c.ld.LGone? || c.ld.LDetach?
  {
    SettledMeansOver(f, c);
    assert PosOf(f, 0) < f.cpus + 1;
  }

  lemma ActKeepsToken(f: Config, c: Conc, a: Action, r: Conc, h: Past)
    requires ConfigOk(f) && Inv(f, c) && Act(f, c, a) == Some(r) && TokenInv(c, h) && SignalInv(c, h)
    ensures Inv(f, r) && TokenInv(r, PastAfter(c, a, h)) && SignalInv(r, PastAfter(c, a, h))
  {
    ActKeeps(f, c, a);
    match a
    case CpuMoves(id) => CpuKeepsToken(f, c, id, r, h);
    case LoaderMoves =>
      LoaderKeepsToken(f, c, r, h);
      LoaderKeepsSignal(f, c, r, h);
    case TimerMoves => TimerKeepsToken(f, c, r, h);
    case MainMoves =>
  }

  lemma {:induction false} TokenFrom(f: Config, c: Conc, h: Past, acts: seq<Action>, r: Conc)
    requires ConfigOk(f) && Inv(f, c) && TokenInv(c, h) && SignalInv(c, h) && After(f, c, acts) == Some(r)
    ensures TokenInv(r, PastOf(f, c, h, acts)) && SignalInv(r, PastOf(f, c, h, acts))
    decreases |acts|
  {
    if acts != [] {
      var d := Act(f, c, acts[0]).value;
      ActKeepsToken(f, c, acts[0], d, h);
      TokenFrom(f, d, PastAfter(c, acts[0], h), acts[1..], r);
    }
  }

  /** In every state that an interleaving reaches. */
  lemma TokenIsWhereItBelongs(f: Config, acts: seq<Action>, c: Conc)
    requires ConfigOk(f) && RunOf(f, acts) == Some(c)
    ensures TokenInv(c, PastOf(f, Boot(f), NO_PAST, acts)) && SignalInv(c, PastOf(f, Boot(f), NO_PAST, acts))
  {
    BootReached(f);
    TokenFrom(f, Boot(f), NO_PAST, acts, c);
  }

  /** What the loader signals is what the timer's reset of the order sets again: the CPU that
      begins the next slot's round, or -1 when no CPU is left. */
  lemma ResetFindsTheSame(f: Config, acts: seq<Action>, c: Conc, r: Conc)
    requires ConfigOk(f) && RunOf(f, acts) == Some(c) && c.timer.TReset? && TimerAct(f, c) == Some(r)
    ensures PastOf(f, Boot(f), NO_PAST, acts).signalled ==> r.turn == c.turn
    ensures !PastOf(f, Boot(f), NO_PAST, acts).signalled ==> c.turn == -1
    ensures var round := Turns(c.active, f.cpus - 1); r.turn == if round == [] then -1 else round[0]
  {
    TokenIsWhereItBelongs(f, acts, c);
    RunIsReached(f, acts, c);
    SettledMeansOver(f, c);
    TimerOutsideReset(f, c, r);
    HighestIsFirst(c.active);
  }

  lemma HighestIsFirst(active: seq<bool>)
    ensures var round := Turns(active, |active| - 1); Highest(active) == if round == [] then -1 else round[0]
  {
    TurnsFromNext(active, |active| - 1);
  }
}
