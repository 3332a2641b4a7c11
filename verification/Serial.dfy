/** The sequential program that the time-slot protocol is meant to be: in each slot the
    active CPUs take whole turns in descending order, then the loader takes one. */
module Serial {
  import opened Wrappers
  import opened Mlq
  import opened Kernel
  import opened Conservation
  import opened Execution

  /** find_next_active_cpu: the highest active CPU at or below `from`, or -1. */
  function NextActive(active: seq<bool>, from: int): (r: int)
    requires -1 <= from < |active|
    ensures -1 <= r <= from
    ensures r >= 0 ==> active[r]
    ensures forall i :: r < i <= from ==> !active[i]
    decreases from + 1
  {
    if from < 0 || active[from] then from else NextActive(active, from - 1)
  }

  /** find_highest_active_cpu. */
  function Highest(active: seq<bool>): (r: int)
    ensures -1 <= r < |active|
    ensures r >= 0 ==> active[r]
    ensures forall i :: r < i < |active| ==> !active[i]
  {
    NextActive(active, |active| - 1)
  }

  /** CPU `who`, or the loader (-1), takes its turn in `slot`. */
  datatype Turn = Turn(who: int, slot: nat)

  /** Who takes part in a slot: fixed when the slot begins. */
  datatype Start = Start(active: seq<bool>, loader: bool)

  /** `turn` is a CPU number, -1 for the loader, or -2 when the loader is done.
      `hist` lists who took a turn in each past slot, `cur` in this one. */
  datatype State = State(
    slot: nat, turn: int, active: seq<bool>, loader: bool, kern: Kern,
    hist: seq<seq<int>>, cur: seq<int>, starts: seq<Start>)

  function Init(f: Config): State {
    var active := seq(f.cpus, _ => true);
    State(0, f.cpus - 1, active, true, InitKern(f), [], [], [Start(active, true)])
  }

  ghost predicate Sane(f: Config, q: State) {
    && |q.active| == f.cpus && Shaped(f, q.kern)
    && -2 <= q.turn < f.cpus && (q.turn >= 0 ==> q.active[q.turn])
    && q.kern.done == !q.loader
  }

  predicate SlotOver(q: State) {
    q.turn == -2 || (q.turn == -1 && !q.loader)
  }

  function CpuTurn(f: Config, q: State): (r: State)
    requires ConfigOk(f) && Sane(f, q) && q.turn >= 0
    ensures Sane(f, r)
  {
    var (k, exits) := CpuSection(f, q.kern, q.turn, q.slot);
    var active := if exits then q.active[q.turn := false] else q.active;
    q.(kern := k, active := active, turn := NextActive(active, q.turn - 1), cur := q.cur + [q.turn])
  }

  function LoaderTurn(f: Config, q: State): (r: State)
    requires ConfigOk(f) && Sane(f, q) && q.turn == -1 && q.loader
    ensures Sane(f, r)
  {
    var (k, exits) := LoaderSection(f, q.kern, q.slot);
    q.(kern := k, loader := !exits, turn := -2, cur := q.cur + [-1])
  }

  function NextSlot(f: Config, q: State): (r: State)
    requires Sane(f, q)
    ensures Sane(f, r)
  {
    q.(slot := q.slot + 1, turn := Highest(q.active),
       hist := q.hist + [q.cur], cur := [], starts := q.starts + [Start(q.active, q.loader)])
  }

  function Step(f: Config, q: State): (r: State)
    requires ConfigOk(f) && Sane(f, q)
    ensures Sane(f, r)
  {
    if SlotOver(q) then NextSlot(f, q)
    else if q.turn >= 0 then CpuTurn(f, q)
    else LoaderTurn(f, q)
  }

  /** The state `n` steps after `q`. */
  function Forward(f: Config, q: State, n: nat): (r: State)
    requires ConfigOk(f) && Sane(f, q)
    ensures Sane(f, r)
    decreases n
  {
    if n == 0 then q else Forward(f, Step(f, q), n - 1)
  }

  /** The program run for `n` steps. */
  function Iterate(f: Config, n: nat): (r: State)
    requires ConfigOk(f)
    ensures Sane(f, r)
  {
    Forward(f, Init(f), n)
  }

  lemma {:induction false} ForwardOneMore(f: Config, q: State, m: nat)
    requires ConfigOk(f) && Sane(f, q)
    ensures Forward(f, q, m + 1) == Step(f, Forward(f, q, m))
    decreases m
  {
    if m > 0 {
      ForwardOneMore(f, Step(f, q), m - 1);
    }
  }

  // ---------- Order of turns ----------

  /** The active CPUs from `from` down to 0. */
  function Turns(active: seq<bool>, from: int): seq<int>
    requires -1 <= from < |active|
    decreases from + 1
  {
    if from < 0 then []
    else (if active[from] then [from] else []) + Turns(active, from - 1)
  }

  /** Everyone who takes part in a slot, in order. */
  function Round(s: Start): seq<int> {
    Turns(s.active, |s.active| - 1) + if s.loader then [-1] else []
  }

  lemma {:induction false} TurnsMembers(active: seq<bool>, from: int)
    requires -1 <= from < |active|
    ensures forall i :: i in Turns(active, from) <==> 0 <= i <= from && active[i]
    decreases from + 1
  {
    if from >= 0 {
      TurnsMembers(active, from - 1);
    }
  }

  lemma {:induction false} TurnsDescend(active: seq<bool>, from: int, a: nat, b: nat)
    requires -1 <= from < |active| && a < b < |Turns(active, from)|
    ensures Turns(active, from)[a] > Turns(active, from)[b]
    decreases from + 1
  {
    if from >= 0 {
      var rest := Turns(active, from - 1);
      if active[from] {
        assert Turns(active, from)[b] == rest[b - 1];
        if a == 0 {
          TurnsMembers(active, from - 1);
          assert rest[b - 1] in rest;
        } else {
          TurnsDescend(active, from - 1, a - 1, b - 1);
        }
      } else {
        assert Turns(active, from) == rest;
        TurnsDescend(active, from - 1, a, b);
      }
    }
  }

  /** A round names each active CPU once, in strictly descending order, then the
      loader (-1) once while it is alive, and nobody else. */
  lemma RoundIsComplete(s: Start)
    ensures forall i :: i in Round(s) <==> (0 <= i < |s.active| && s.active[i]) || (i == -1 && s.loader)
    ensures forall a, b :: 0 <= a < b < |Round(s)| ==> Round(s)[a] > Round(s)[b]
  {
    var t := Turns(s.active, |s.active| - 1);
    TurnsMembers(s.active, |s.active| - 1);
    forall a, b | 0 <= a < b < |Round(s)|
      ensures Round(s)[a] > Round(s)[b]
    {
      assert Round(s)[a] == t[a] && t[a] in t;
      if b < |t| {
        TurnsDescend(s.active, |s.active| - 1, a, b);
      }
    }
  }

  lemma {:induction false} TurnsFromNext(active: seq<bool>, from: int)
    requires -1 <= from < |active|
    ensures Turns(active, from) == Turns(active, NextActive(active, from))
    decreases from + 1
  {
    if from >= 0 && !active[from] {
      TurnsFromNext(active, from - 1);
    }
  }

  lemma {:induction false} TurnsAgree(a: seq<bool>, b: seq<bool>, from: int)
    requires -1 <= from < |a| == |b| && forall i :: 0 <= i <= from ==> a[i] == b[i]
    ensures Turns(a, from) == Turns(b, from) && NextActive(a, from) == NextActive(b, from)
    decreases from + 1
  {
    if from >= 0 {
      TurnsAgree(a, b, from - 1);
    }
  }

  ghost predicate OrderOk(f: Config, q: State) {
    && Sane(f, q)
    && |q.hist| == q.slot && |q.starts| == q.slot + 1
    && (forall t :: 0 <= t <= q.slot ==> |q.starts[t].active| == f.cpus)
    && (forall t :: 0 <= t < q.slot ==> q.hist[t] == Round(q.starts[t]))
    && var s := q.starts[q.slot];
    && (forall id :: 0 <= id < f.cpus && id <= q.turn ==> q.active[id] == s.active[id])
    && (forall id :: 0 <= id < f.cpus && q.active[id] ==> s.active[id])
    && (q.turn != -2 ==> q.loader == s.loader) && (q.turn == -2 ==> s.loader)
    && (if q.turn == -2 then q.cur == Round(s)
        else q.cur + Turns(s.active, q.turn) == Turns(s.active, f.cpus - 1))
  }

  /** How one step changes the bookkeeping of turns, whatever the turn itself does. */
  ghost predicate Moves(q: State, r: State) {
    if SlotOver(q) then
      && r.slot == q.slot + 1 && r.turn == Highest(q.active) && r.active == q.active && r.loader == q.loader
      && r.hist == q.hist + [q.cur] && r.cur == [] && r.starts == q.starts + [Start(q.active, q.loader)]
    else
      && r.slot == q.slot && r.hist == q.hist && r.starts == q.starts && r.cur == q.cur + [q.turn]
      && if q.turn >= 0 then
           && q.turn < |q.active| && r.loader == q.loader
           && (r.active == q.active || r.active == q.active[q.turn := false])
           && r.turn == NextActive(r.active, q.turn - 1)
         else r.active == q.active && r.turn == -2
  }

  lemma StepMoves(f: Config, q: State)
    requires ConfigOk(f) && Sane(f, q)
    ensures Moves(q, Step(f, q))
  {
  }

  lemma NextSlotKeepsOrder(f: Config, q: State, r: State)
    requires OrderOk(f, q) && Sane(f, r) && Moves(q, r) && SlotOver(q)
    ensures OrderOk(f, r)
  {
    var s := q.starts[q.slot];
    if q.turn == -1 {
      assert q.cur + Turns(s.active, -1) == q.cur;
      assert Turns(s.active, f.cpus - 1) + [] == Turns(s.active, f.cpus - 1);
    }
    assert q.cur == Round(s);
    TurnsFromNext(q.active, f.cpus - 1);
    assert r.cur + Turns(q.active, r.turn) == Turns(q.active, r.turn);
  }

  lemma TurnKeepsOrder(f: Config, q: State, r: State)
    requires OrderOk(f, q) && Sane(f, r) && Moves(q, r) && !SlotOver(q)
    ensures OrderOk(f, r)
  {
    var s := q.starts[q.slot];
    if q.turn >= 0 {
      CpuTurnKeepsRest(q.cur, s.active, r.active, q.turn);
    } else {
      assert q.cur + Turns(s.active, -1) == q.cur;
    }
  }

  /** Turns taken and turns to come still make up the round. */
  lemma CpuTurnKeepsRest(cur: seq<int>, start: seq<bool>, active: seq<bool>, turn: nat)
    requires turn < |start| == |active| && start[turn]
    requires forall i :: 0 <= i < turn ==> active[i] == start[i]
    ensures (cur + [turn]) + Turns(start, NextActive(active, turn - 1)) == cur + Turns(start, turn)
  {
    TurnsAgree(active, start, turn - 1);
    TurnsFromNext(start, turn - 1);
    assert Turns(start, turn) == [turn] + Turns(start, turn - 1);
  }

  lemma StepKeepsOrder(f: Config, q: State)
    requires ConfigOk(f) && OrderOk(f, q)
    ensures OrderOk(f, Step(f, q))
  {
    StepMoves(f, q);
    if SlotOver(q) {
      NextSlotKeepsOrder(f, q, Step(f, q));
    } else {
      TurnKeepsOrder(f, q, Step(f, q));
    }
  }

  /** The turns of one slot. */
  function Tagged(who: seq<int>, slot: nat): seq<Turn> {
    seq(|who|, i requires 0 <= i < |who| => Turn(who[i], slot))
  }

  /** The turns of slots 0..|hist|-1. */
  function Flat(hist: seq<seq<int>>): seq<Turn> {
    if hist == [] then []
    else Flat(hist[..|hist| - 1]) + Tagged(hist[|hist| - 1], |hist| - 1)
  }

  /** Every turn taken so far, oldest first. */
  function LogOf(q: State): seq<Turn> {
    Flat(q.hist) + Tagged(q.cur, |q.hist|)
  }

  lemma MovesExtendLog(f: Config, q: State, r: State)
    requires OrderOk(f, q) && Moves(q, r)
    ensures LogOf(r) == LogOf(q) + if SlotOver(q) then [] else [Turn(q.turn, q.slot)]
  {
  }

  // ---------- What every state of the program satisfies ----------

  ghost predicate Good(f: Config, q: State)
    requires ConfigOk(f)
  {
    && OrderOk(f, q)
    && Placed(f, q.kern) && InOrder(f, q.kern) && Dispatches(f, q.kern, -1)
    && (forall id :: 0 <= id < f.cpus && q.active[id] ==>
          q.kern.cpus[id].nextAt == if id > q.turn then q.slot + 1 else q.slot)
    && (forall id :: 0 <= id < f.cpus && !q.active[id] ==> q.kern.cpus[id].proc == None)
  }

  /** Placed data: the CPU that fetches shares its process with nobody. */
  lemma AloneAfterFetch(f: Config, k: Kern, id: nat, slot: nat)
    requires ConfigOk(f) && Placed(f, k) && id < f.cpus
    ensures Alone(f, Fetch(f, Release(f, k, id, slot), id), id)
  {
    ReleasePlaced(f, k, id, slot);
    FetchPlaced(f, Release(f, k, id, slot), id);
    var r := Fetch(f, Release(f, k, id, slot), id);
    forall jd, p | 0 <= jd < f.cpus && jd != id && HeldBy(r, id, p)
      ensures !HeldBy(r, jd, p)
    {
    }
  }

  /** A CPU turn changes no other CPU. */
  lemma OthersUntouched(f: Config, k: Kern, id: nat, slot: nat)
    requires ConfigOk(f) && Shaped(f, k) && id < f.cpus
    ensures var r := CpuSection(f, k, id, slot);
            && (forall jd :: 0 <= jd < f.cpus && jd != id ==> r.0.cpus[jd] == k.cpus[jd])
            && r.0.cpus[id].nextAt == slot + 1 && (r.1 ==> r.0.cpus[id].proc == None)
            && r.0.done == k.done && r.0.next == k.next
  {
    ReleaseTouchesOne(f, k, id, slot);
    var r := Release(f, k, id, slot);
    FetchTouchesOne(f, r, id);
    DecideTouchesOne(f, Fetch(f, r, id), id, k.cpus[id].proc.None?, slot);
  }

  /** Two states of the kernel differ in no CPU but `id` and not in the loader's data. */
  ghost predicate TouchesOne(k: Kern, r: Kern, id: nat) {
    && |r.cpus| == |k.cpus| && r.done == k.done && r.next == k.next
    && forall jd :: 0 <= jd < |k.cpus| && jd != id ==> r.cpus[jd] == k.cpus[jd]
  }

  lemma ReleaseTouchesOne(f: Config, k: Kern, id: nat, slot: nat)
    requires ConfigOk(f) && Shaped(f, k) && id < f.cpus
    ensures TouchesOne(k, Release(f, k, id, slot), id)
  {
  }

  lemma FetchTouchesOne(f: Config, k: Kern, id: nat)
    requires ConfigOk(f) && Shaped(f, k) && id < f.cpus
    ensures TouchesOne(k, Fetch(f, k, id), id)
  {
  }

  lemma DecideTouchesOne(f: Config, k: Kern, id: nat, idle: bool, slot: nat)
    requires ConfigOk(f) && Shaped(f, k) && id < f.cpus
    ensures var r := Decide(f, k, id, idle, slot);
            TouchesOne(k, r.0, id) && r.0.cpus[id].nextAt == slot + 1 && (r.1 ==> r.0.cpus[id].proc == None)
  {
  }

  lemma StepKeepsGood(f: Config, q: State)
    requires ConfigOk(f) && Good(f, q)
    ensures Good(f, Step(f, q))
  {
    if SlotOver(q) {
      StepKeepsOrder(f, q);
    } else if q.turn >= 0 {
      CpuStepKeepsGood(f, q);
    } else {
      StepKeepsOrder(f, q);
      LoaderSectionPlaced(f, q.kern, q.slot);
      LoaderSectionHistory(f, q.kern, q.slot);
    }
  }

  lemma CpuStepKeepsGood(f: Config, q: State)
    requires ConfigOk(f) && Good(f, q) && !SlotOver(q) && q.turn >= 0
    ensures Good(f, Step(f, q))
  {
    StepKeepsOrder(f, q);
    CpuTurnData(f, q.kern, q.turn, q.slot);
  }

  lemma CpuTurnData(f: Config, k: Kern, id: nat, slot: nat)
    requires ConfigOk(f) && id < f.cpus && Placed(f, k) && InOrder(f, k) && Dispatches(f, k, -1)
    requires k.cpus[id].nextAt == slot
    ensures var r := CpuSection(f, k, id, slot);
            && Placed(f, r.0) && InOrder(f, r.0) && Dispatches(f, r.0, -1)
            && TouchesOne(k, r.0, id) && r.0.cpus[id].nextAt == slot + 1 && (r.1 ==> r.0.cpus[id].proc == None)
  {
    CpuSectionPlaced(f, k, id, slot);
    AloneAfterFetch(f, k, id, slot);
    CpuSectionHistory(f, k, id, slot);
    OthersUntouched(f, k, id, slot);
  }

  lemma InitGood(f: Config)
    requires ConfigOk(f)
    ensures Good(f, Init(f))
  {
  }

  /** Every state of the program: each slot had its full round in order, every process
      is in one place, instructions ran once each in order, every dispatch had its
      exact length. */
  lemma AlwaysGood(f: Config, n: nat)
    requires ConfigOk(f)
    ensures Good(f, Iterate(f, n))
  {
    InitGood(f);
    ForwardGood(f, Init(f), n, Iterate(f, n));
  }

  lemma {:induction false} ForwardGood(f: Config, q: State, n: nat, r: State)
    requires ConfigOk(f) && Good(f, q) && r == Forward(f, q, n)
    ensures Good(f, r)
    decreases n
  {
    if n > 0 {
      StepKeepsGood(f, q);
      ForwardGood(f, Step(f, q), n - 1, r);
    }
  }

  lemma SectionsOnlyRecord(f: Config, k: Kern, id: nat, slot: nat)
    requires ConfigOk(f) && Shaped(f, k)
    ensures id < f.cpus ==> k.execs <= CpuSection(f, k, id, slot).0.execs
    ensures id < f.cpus ==> k.bursts <= CpuSection(f, k, id, slot).0.bursts
    ensures LoaderSection(f, k, slot).0.execs == k.execs && LoaderSection(f, k, slot).0.bursts == k.bursts
  {
  }

  lemma StepOnlyRecords(f: Config, q: State, r: State)
    requires ConfigOk(f) && Sane(f, q) && r == Step(f, q)
    ensures q.hist <= r.hist && q.starts <= r.starts
    ensures q.kern.execs <= r.kern.execs && q.kern.bursts <= r.kern.bursts
  {
    SectionsOnlyRecord(f, q.kern, if q.turn >= 0 then q.turn else 0, q.slot);
  }

  /** `r` continues the records of `q`. */
  ghost predicate Continues(q: State, r: State) {
    && q.hist <= r.hist && q.starts <= r.starts
    && q.kern.execs <= r.kern.execs && q.kern.bursts <= r.kern.bursts
  }

  /** Nothing that was recorded is ever revised. */
  lemma {:induction false} ForwardContinues(f: Config, q: State, n: nat)
    requires ConfigOk(f) && Sane(f, q)
    ensures Continues(q, Forward(f, q, n))
    decreases n
  {
    if n > 0 {
      StepOnlyRecords(f, q, Step(f, q));
      ForwardContinues(f, Step(f, q), n - 1);
    }
  }

  lemma StepLosesNothing(f: Config, q: State, r: State)
    requires ConfigOk(f) && Good(f, q) && r == Step(f, q)
    requires WithinCapacity(f, q.kern) && WithinCapacity(f, r.kern)
    ensures r.kern.lost == q.kern.lost
  {
    if SlotOver(q) {
    } else if q.turn >= 0 {
      CpuSectionLosesNothing(f, q.kern, q.turn, q.slot);
    } else {
      LoaderSectionLosesNothing(f, q.kern, q.slot);
    }
  }

  /** As long as no priority ever has more than 50 unfinished processes, no process
      is dropped. */
  lemma NothingIsLost(f: Config, n: nat)
    requires ConfigOk(f) && forall j :: 0 <= j <= n ==> WithinCapacity(f, Iterate(f, j).kern)
    ensures Iterate(f, n).kern.lost == {}
  {
    InitGood(f);
    forall j | 0 <= j <= n
      ensures WithinCapacity(f, Forward(f, Init(f), j).kern)
    {
      assert WithinCapacity(f, Iterate(f, j).kern);
    }
    ForwardLosesNothing(f, Init(f), n);
  }

  lemma {:induction false} ForwardLosesNothing(f: Config, q: State, n: nat)
    requires ConfigOk(f) && Good(f, q)
    requires forall j :: 0 <= j <= n ==> WithinCapacity(f, Forward(f, q, j).kern)
    ensures Forward(f, q, n).kern.lost == q.kern.lost
    decreases n
  {
    if n > 0 {
      var r := Step(f, q);
      assert Forward(f, q, 0) == q;
      assert Forward(f, q, 1) == Forward(f, r, 0);
      StepLosesNothing(f, q, r);
      StepKeepsGood(f, q);
      forall j | 0 <= j <= n - 1
        ensures WithinCapacity(f, Forward(f, r, j).kern)
      {
        assert Forward(f, q, j + 1) == Forward(f, r, j);
      }
      ForwardLosesNothing(f, r, n - 1);
    }
  }

  ghost predicate AllIdle(f: Config, q: State) {
    && Sane(f, q) && q.kern.next == 0
    && (forall id :: 0 <= id < f.cpus ==> q.active[id] && q.kern.cpus[id].proc == None)
    && (forall l :: 0 <= l < MAX_PRIO ==> q.kern.ready[l] == [])
  }

  lemma IdleStep(f: Config, q: State, r: State)
    requires ConfigOk(f) && |f.prio| == 0 && AllIdle(f, q) && r == Step(f, q)
    ensures AllIdle(f, r)
  {
  }

  /** The simulator need not stop: an idle CPU never looks at `done`. With no
      processes at all every CPU stays active for ever. */
  lemma IdleCpusNeverStop(f: Config, n: nat)
    requires ConfigOk(f) && |f.prio| == 0
    ensures forall id :: 0 <= id < f.cpus ==> Iterate(f, n).active[id] && Iterate(f, n).kern.cpus[id].proc == None
  {
    ForwardIdle(f, Init(f), n);
  }

  lemma {:induction false} ForwardIdle(f: Config, q: State, n: nat)
    requires ConfigOk(f) && |f.prio| == 0 && AllIdle(f, q)
    ensures AllIdle(f, Forward(f, q, n))
    decreases n
  {
    if n > 0 {
      IdleStep(f, q, Step(f, q));
      ForwardIdle(f, Step(f, q), n - 1);
    }
  }
}
