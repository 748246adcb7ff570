// The game service of src/app/service.rs: the command loop, the battle flags and
// run_battle, which repeats battle_run until a side has no unit with hp left.

module Service {
  import opened Optional
  import Domain
  import Engine

  /** A message on the command channel. */
  datatype GameCommand = Army(enemyNum: nat, friendlyNum: nat) | StartBattle | StopBattle | StopService

  /** What one battle_run call reads from outside: the clock and the random stream. */
  datatype TickInput = TickInput(now: nat, draws: nat -> nat)

  /** One pass of the service loop: the command try_recv found (if any), the clock readings of the two
      Unit::test calls an Army command makes, and the inputs of the battle_run calls that follow. */
  datatype Round = Round(cmd: Option<GameCommand>, enemyNow: nat, friendlyNow: nat, ticks: seq<TickInput>)

  /** Everything the service loop changes: its two flags, the shared army, and the unit id counter. */
  datatype ServiceState = ServiceState(running: bool, battleRunning: bool,
                                       friendly: Engine.Formation, enemy: Engine.Formation, nextId: nat)

  /** The match on the received command. Army builds the enemy formation first, then the friendly one. */
  function Handle(s: ServiceState, cmd: Option<GameCommand>, enemyNow: nat, friendlyNow: nat): (t: ServiceState)
    ensures cmd.None? ==> t == s
    ensures cmd.Some? && !cmd.value.Army? ==> t.friendly == s.friendly && t.enemy == s.enemy && t.nextId == s.nextId
    ensures cmd.Some? && cmd.value.Army? ==> t.running == s.running && t.battleRunning == s.battleRunning
    ensures t.nextId >= s.nextId
    ensures cmd == Some(StartBattle) && s.battleRunning ==> t == s
    ensures cmd == Some(StartBattle) || cmd == Some(StopBattle) ==> t.running == s.running
    ensures cmd == Some(StartBattle) ==> t.battleRunning
    ensures cmd == Some(StopBattle) ==> !t.battleRunning
    ensures cmd == Some(StopService) ==> !t.running && t.battleRunning == s.battleRunning
  {
    match cmd
    case None => s
    case Some(Army(e, f)) =>
      var mid := Domain.AfterTaking(s.nextId, e);
      s.(enemy := Domain.TestFormation(s.nextId, e, enemyNow),
         friendly := Domain.TestFormation(mid, f, friendlyNow),
         nextId := Domain.AfterTaking(mid, f))
    case Some(StartBattle) => s.(battleRunning := true)
    case Some(StopBattle) => s.(battleRunning := false)
    case Some(StopService) => s.(running := false)
  }

  /** How a run of battle_run calls ended: `finished` when one call returned false. */
  datatype BattleRun = BattleRun(finished: bool, friendly: Engine.Formation, enemy: Engine.Formation)

  /** battle_run repeated on the given inputs until one call returns false. Running out of inputs
      first stands for a battle still going on past the modelled horizon. */
  function RunTicks(friendly: Engine.Formation, enemy: Engine.Formation, ticks: seq<TickInput>): (b: BattleRun)
    ensures |b.friendly| == |friendly| && |b.enemy| == |enemy|
    ensures ticks == [] ==> b == BattleRun(false, friendly, enemy)
    decreases |ticks|
  {
    if ticks == [] then BattleRun(false, friendly, enemy)
    else
      var t := Engine.Tick(friendly, enemy, ticks[0].now, ticks[0].draws);
      if !t.cont then BattleRun(true, t.friendly, t.enemy)
      else RunTicks(t.friendly, t.enemy, ticks[1..])
  }

  /** run_battle: nothing happens unless the battle flag is set; otherwise the ticks run until the
      battle is decided, and then the flag is cleared. */
  function Battle(s: ServiceState, ticks: seq<TickInput>): (r: (bool, ServiceState))
    ensures r.1.running == s.running && r.1.nextId == s.nextId
    ensures r.0 ==> !r.1.battleRunning
    ensures !s.battleRunning ==> r == (true, s)
  {
    if !s.battleRunning then (true, s)
    else
      var b := RunTicks(s.friendly, s.enemy, ticks);
      if b.finished then (true, s.(battleRunning := false, friendly := b.friendly, enemy := b.enemy))
      else (false, s.(friendly := b.friendly, enemy := b.enemy))
  }

  /** Why the service loop stopped: a StopService command, a battle outlasting its inputs, or the end of the rounds. */
  datatype ServeEnd = Stopped | InBattle | InputEnd

  datatype Served = Served(end: ServeEnd, state: ServiceState)

  /** The thread body of start: take a command, leave if the running flag is down, run the battle, repeat. */
  function Serve(s: ServiceState, rounds: seq<Round>): (r: Served)
    ensures r.state.nextId >= s.nextId
    ensures rounds == [] ==> r == Served(InputEnd, s)
    decreases |rounds|
  {
    if rounds == [] then Served(InputEnd, s)
    else
      var h := Handle(s, rounds[0].cmd, rounds[0].enemyNow, rounds[0].friendlyNow);
      if !h.running then Served(Stopped, h)
      else
        var b := Battle(h, rounds[0].ticks);
        if !b.0 then Served(InBattle, b.1) else Serve(b.1, rounds[1..])
  }

  /** One pass of the service loop, unfolded. */
  lemma ServeStep(s: ServiceState, rounds: seq<Round>)
    requires rounds != []
    ensures var h := Handle(s, rounds[0].cmd, rounds[0].enemyNow, rounds[0].friendlyNow);
            var b := Battle(h, rounds[0].ticks);
            Serve(s, rounds) == if !h.running then Served(Stopped, h)
                                else if !b.0 then Served(InBattle, b.1)
                                else Serve(b.1, rounds[1..])
  {
  }

  // ---------------------------------------------------------------------
  // Properties of the service loop.
  // ---------------------------------------------------------------------

  /** A finished run of battle_run calls leaves a decided battle: one side has no unit with hp left. */
  lemma {:induction false} RunTicksDecides(friendly: Engine.Formation, enemy: Engine.Formation, ticks: seq<TickInput>)
    ensures RunTicks(friendly, enemy, ticks).finished ==>
              var b := RunTicks(friendly, enemy, ticks);
              Engine.Judge(b.friendly, b.enemy) != Engine.Fight
              && (!Engine.SideAlive(b.friendly) || !Engine.SideAlive(b.enemy))
    decreases |ticks|
  {
    if ticks != [] {
      var t := Engine.Tick(friendly, enemy, ticks[0].now, ticks[0].draws);
      Engine.TickContinuesIffBothAlive(friendly, enemy, ticks[0].now, ticks[0].draws);
      if t.cont {
        RunTicksDecides(t.friendly, t.enemy, ticks[1..]);
      }
    }
  }

  /** A run that is not finished used every input, each tick finding both sides still fighting. */
  lemma {:induction false} RunTicksUnfinished(friendly: Engine.Formation, enemy: Engine.Formation, ticks: seq<TickInput>)
    requires !RunTicks(friendly, enemy, ticks).finished && ticks != []
    ensures Engine.SideAlive(friendly) && Engine.SideAlive(enemy)
  {
    Engine.TickContinuesIffBothAlive(friendly, enemy, ticks[0].now, ticks[0].draws);
  }

  /** Across any number of ticks, units never outlive their hp and never exceed their maximum. */
  lemma {:induction false} RunTicksKeepsReady(friendly: Engine.Formation, enemy: Engine.Formation, ticks: seq<TickInput>)
    requires Domain.AllAlive(friendly) && Domain.AllAlive(enemy)
    requires Domain.HpBounded(friendly) && Domain.HpBounded(enemy)
    ensures Domain.AllAlive(RunTicks(friendly, enemy, ticks).friendly) && Domain.AllAlive(RunTicks(friendly, enemy, ticks).enemy)
    ensures Domain.HpBounded(RunTicks(friendly, enemy, ticks).friendly) && Domain.HpBounded(RunTicks(friendly, enemy, ticks).enemy)
    decreases |ticks|
  {
    if ticks != [] {
      var t := Engine.Tick(friendly, enemy, ticks[0].now, ticks[0].draws);
      Engine.TickKeepsAllAlive(friendly, enemy, ticks[0].now, ticks[0].draws);
      Engine.TickKeepsHpBounded(friendly, enemy, ticks[0].now, ticks[0].draws);
      if t.cont {
        RunTicksKeepsReady(t.friendly, t.enemy, ticks[1..]);
      }
    }
  }

  /** An Army command installs two fresh formations whose units are all alive and at full health. */
  lemma ArmyMessageReady(s: ServiceState, e: nat, f: nat, enemyNow: nat, friendlyNow: nat)
    ensures Domain.AllAlive(Handle(s, Some(Army(e, f)), enemyNow, friendlyNow).enemy)
    ensures Domain.AllAlive(Handle(s, Some(Army(e, f)), enemyNow, friendlyNow).friendly)
    ensures Domain.HpBounded(Handle(s, Some(Army(e, f)), enemyNow, friendlyNow).enemy)
    ensures Domain.HpBounded(Handle(s, Some(Army(e, f)), enemyNow, friendlyNow).friendly)
  {
    Domain.TestFormationReady(s.nextId, e, enemyNow);
    Domain.TestFormationReady(Domain.AfterTaking(s.nextId, e), f, friendlyNow);
  }

  /** Ids handed out by one Army command: the enemy gets the next e ids of the counter, the friendly
      side the f after those, so no id is shared between the two sides. */
  lemma ArmyMessageIds(s: ServiceState, e: nat, f: nat, enemyNow: nat, friendlyNow: nat, c1: nat, r1: nat, c2: nat, r2: nat)
    requires var t := Handle(s, Some(Army(e, f)), enemyNow, friendlyNow);
             c1 < |t.enemy| && r1 < |t.enemy[c1]| && c2 < |t.friendly| && r2 < |t.friendly[c2]|
    ensures var t := Handle(s, Some(Army(e, f)), enemyNow, friendlyNow);
            s.nextId <= t.enemy[c1][r1].id < t.friendly[c2][r2].id < t.nextId
  {
    var mid := Domain.AfterTaking(s.nextId, e);
    Domain.TestFormationIdRange(s.nextId, e, enemyNow, c1, r1);
    Domain.TestFormationIdRange(mid, f, friendlyNow, c2, r2);
  }

  /** Between passes of the loop the battle flag is always down: run_battle clears it whenever it
      returns, and the loop takes no command while a battle is running. */
  lemma {:induction false} ServeLeavesBattleIdle(s: ServiceState, rounds: seq<Round>)
    requires s.running && !s.battleRunning
    ensures Serve(s, rounds).end != InBattle ==> !Serve(s, rounds).state.battleRunning
    decreases |rounds|
  {
    if rounds != [] {
      var h := Handle(s, rounds[0].cmd, rounds[0].enemyNow, rounds[0].friendlyNow);
      if h.running {
        var b := Battle(h, rounds[0].ticks);
        if b.0 {
          ServeLeavesBattleIdle(b.1, rounds[1..]);
        }
      }
    }
  }

  /** The rounds with every StopBattle command replaced by no command at all. */
  function DropStopBattle(rounds: seq<Round>): (r: seq<Round>)
    ensures |r| == |rounds|
    ensures forall i :: 0 <= i < |rounds| ==> r[i].ticks == rounds[i].ticks
    ensures forall i :: 0 <= i < |rounds| ==> r[i].cmd != Some(StopBattle)
    ensures forall i :: 0 <= i < |rounds| && rounds[i].cmd != Some(StopBattle) ==> r[i] == rounds[i]
  {
    seq(|rounds|, i requires 0 <= i < |rounds| =>
      if rounds[i].cmd == Some(StopBattle) then rounds[i].(cmd := None) else rounds[i])
  }

  /** StopBattle has no effect: it is only ever read while no battle runs, so the service behaves
      exactly as if it had never been sent. */
  lemma {:induction false} StopBattleIgnored(s: ServiceState, rounds: seq<Round>)
    requires !s.battleRunning
    ensures Serve(s, rounds) == Serve(s, DropStopBattle(rounds))
    decreases |rounds|
  {
    if rounds != [] {
      var dropped := DropStopBattle(rounds);
      assert dropped[1..] == DropStopBattle(rounds[1..]);
      var h := Handle(s, rounds[0].cmd, rounds[0].enemyNow, rounds[0].friendlyNow);
      assert Handle(s, dropped[0].cmd, dropped[0].enemyNow, dropped[0].friendlyNow) == h;
      if h.running {
        var b := Battle(h, rounds[0].ticks);
        if b.0 {
          StopBattleIgnored(b.1, rounds[1..]);
        }
      }
    }
  }

  /** A StopService command ends the loop by the round that carries it, unless a battle is still
      going on then; the loop ends on Stopped only with the running flag down. */
  lemma {:induction false} ServeStops(s: ServiceState, rounds: seq<Round>, k: nat)
    requires k < |rounds| && rounds[k].cmd == Some(StopService)
    ensures Serve(s, rounds).end != InputEnd
    decreases |rounds|
  {
    var h := Handle(s, rounds[0].cmd, rounds[0].enemyNow, rounds[0].friendlyNow);
    if k > 0 && h.running {
      var b := Battle(h, rounds[0].ticks);
      if b.0 {
        ServeStops(b.1, rounds[1..], k - 1);
      }
    }
  }

  /** The loop leaves with Stopped exactly when the running flag went down, and otherwise keeps it up. */
  lemma {:induction false} ServeRunningFlag(s: ServiceState, rounds: seq<Round>)
    requires s.running
    ensures Serve(s, rounds).end == Stopped <==> !Serve(s, rounds).state.running
    decreases |rounds|
  {
    if rounds != [] {
      var h := Handle(s, rounds[0].cmd, rounds[0].enemyNow, rounds[0].friendlyNow);
      if h.running {
        var b := Battle(h, rounds[0].ticks);
        if b.0 {
          ServeRunningFlag(b.1, rounds[1..]);
        }
      }
    }
  }

  // ---------------------------------------------------------------------
  // The service object.
  // ---------------------------------------------------------------------

  class GameService {
    var running: bool
    var battleRunning: bool
    const army: Engine.Army
    const ids: Domain.IdCounter

    /** The service's flags, the army it shares, and the id counter, as one value. */
    function State(): ServiceState
      reads this, army, ids
    {
      ServiceState(running, battleRunning, army.friendlyUnits, army.enemyUnits, ids.next)
    }

    /** GameService::new: both flags down. */
    constructor(army: Engine.Army, ids: Domain.IdCounter)
      ensures this.army == army && this.ids == ids
      ensures !running && !battleRunning
    {
      this.army := army;
      this.ids := ids;
      running := false;
      battleRunning := false;
    }

    /** army_message: build both test formations, then replace both sides of the army at once. */
    method ArmyMessage(enemyNum: nat, friendlyNum: nat, enemyNow: nat, friendlyNow: nat)
      modifies army, ids
      ensures State() == Handle(old(State()), Some(Army(enemyNum, friendlyNum)), enemyNow, friendlyNow)
    {
      var enemyUnits := Domain.Test(enemyNum, enemyNow, ids);
      var friendlyUnits := Domain.Test(friendlyNum, friendlyNow, ids);
      army.enemyUnits := enemyUnits;
      army.friendlyUnits := friendlyUnits;
    }

    /** start_battle: raise the battle flag; a second start is refused and changes nothing. */
    method StartBattle()
      modifies this
      ensures State() == Handle(old(State()), Some(GameCommand.StartBattle), 0, 0)
    {
      if battleRunning {
        return;
      }
      battleRunning := true;
    }

    /** stop: lower the running flag. */
    method Stop()
      modifies this
      ensures State() == old(State()).(running := false)
    {
      running := false;
    }

    /** run_battle: while the battle flag is up, call battle_run until it returns false; then clear the flag.
        `finished` is false when the inputs ran out first, the flag then still being up. */
    method RunBattle(ticks: seq<TickInput>) returns (finished: bool)
      modifies this, army
      ensures (finished, State()) == Battle(old(State()), ticks)
    {
      ghost var friendly0, enemy0 := army.friendlyUnits, army.enemyUnits;
      finished := false;
      var i := 0;
      while i < |ticks| && !finished
        invariant 0 <= i <= |ticks|
        invariant running == old(running) && battleRunning == old(battleRunning)
        invariant !battleRunning ==> army.friendlyUnits == friendly0 && army.enemyUnits == enemy0
        invariant battleRunning && !finished ==>
                    RunTicks(army.friendlyUnits, army.enemyUnits, ticks[i..]) == RunTicks(friendly0, enemy0, ticks)
        invariant battleRunning && finished ==>
                    BattleRun(true, army.friendlyUnits, army.enemyUnits) == RunTicks(friendly0, enemy0, ticks)
        decreases |ticks| - i
      {
        if battleRunning {
          assert ticks[i..][0] == ticks[i] && ticks[i..][1..] == ticks[i + 1..];
          var cont := army.BattleRun(ticks[i].now, ticks[i].draws);
          if !cont {
            finished := true;
          }
        } else {
          finished := true;
        }
        i := i + 1;
      }
      if !battleRunning {
        finished := true;
      }
      if finished {
        battleRunning := false;
      }
    }

    /** The match on a received command, applied to the service in place. */
    method Dispatch(cmd: Option<GameCommand>, enemyNow: nat, friendlyNow: nat)
      modifies this, army, ids
      ensures State() == Handle(old(State()), cmd, enemyNow, friendlyNow)
    {
      match cmd {
        case None =>
        case Some(Army(e, f)) => ArmyMessage(e, f, enemyNow, friendlyNow);
        case Some(StartBattle) => StartBattle();
        case Some(StopBattle) => battleRunning := false;
        case Some(StopService) => running := false;
      }
    }

    /** start: raise the running flag and run the service loop over the given rounds. */
    method Start(rounds: seq<Round>) returns (end: ServeEnd)
      modifies this, army, ids
      ensures Served(end, State()) == Serve(old(State()).(running := true), rounds)
    {
      running := true;
      end := InputEnd;
      var k := 0;
      while k < |rounds|
        invariant 0 <= k <= |rounds|
        invariant Serve(State(), rounds[k..]) == Serve(old(State()).(running := true), rounds)
        decreases |rounds| - k
      {
        var round := rounds[k];
        ServeStep(State(), rounds[k..]);
        assert rounds[k..][0] == round && rounds[k..][1..] == rounds[k + 1..];
        Dispatch(round.cmd, round.enemyNow, round.friendlyNow);
        if !running {
          end := Stopped;
          return;
        }
        var finished := RunBattle(round.ticks);
        if !finished {
          end := InBattle;
          return;
        }
        k := k + 1;
      }
    }
  }
}
