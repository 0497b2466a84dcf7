/** What a player has spent and gained in any run of the game since the last reset, and what is left of it. */
module GameAccounts {
  import opened Physics
  import opened GameState
  import opened GameLaws
  import opened GameCommands
  import M = SessionMessages

  /** Shots, strokes and spells since the last reset, the stamina gained since, and the strokes since the last spell. */
  datatype Tally = Tally(shots: nat, strokes: nat, spells: nat, gained: int, chain: nat)

  const NOTHING := Tally(0, 0, 0, 0, 0)

  /** The tally once one more deed was done. Shots, strokes and spells that the player could not afford do not count. */
  function Counted(g: Game, t: Tally, deed: Deed, a: Game): Tally
    requires Staffed(g)
  {
    match deed
    case Switch(_) => t
    case Command(command, _) =>
      if command == M.RESET then NOTHING
      else if command == M.FIRE then WithGain(g, t.(shots := t.shots + if g.ammo > 0 then 1 else 0), a, 0)
      else if command == M.MELEE && g.stamina >= 10 then
        WithGain(g, t.(strokes := t.strokes + 1, chain := t.chain + 1), a, 10)
      else if command == M.SPECIAL && g.stamina >= 25 then WithGain(g, t.(spells := t.spells + 1, chain := 0), a, 25)
      else WithGain(g, t, a, 0)
  }

  /** What the stamina has gone up by beside what was spent counts as gained. */
  function WithGain(g: Game, t: Tally, a: Game, spent: int): Tally {
    t.(gained := t.gained + a.stamina - (g.stamina - spent))
  }

  /** The books are balanced. */
  ghost predicate Balanced(g: Game, t: Tally) {
    && Staffed(g)
    && g.ammo == 24 - t.shots + (if g.pickup.active then 0 else 6) && g.ammo >= 0
    && g.stamina == 100 - 10 * t.strokes - 25 * t.spells + t.gained && 0 <= g.stamina <= 100
    && (if g.pickup.active then t.gained == 0 else 0 <= t.gained <= 20)
    && g.combo == Min(1_000_000, t.chain)
  }

  lemma {:induction false} CommandBalances(w: World, g: Game, t: Tally, command: int, value: int)
    requires Balanced(g, t) && Recognized(command, value)
    ensures var a := Done(w, g, Command(command, value)); Balanced(a, Counted(g, t, Command(command, value), a))
  {
    Resources(w, g, command);
  }

  /** The tally of a run of deeds. */
  function Tallied(w: World, g: Game, t: Tally, deeds: seq<Deed>): Tally
    requires Staffed(g) && AllRecognized(deeds)
    decreases |deeds|
  {
    if deeds == [] then t
    else
      var a := Done(w, g, deeds[0]);
      Tallied(w, a, Counted(g, t, deeds[0], a), deeds[1..])
  }

  lemma {:induction false} RunBalances(w: World, g: Game, t: Tally, deeds: seq<Deed>)
    requires Balanced(g, t) && AllRecognized(deeds)
    ensures Balanced(Played(w, g, deeds), Tallied(w, g, t, deeds))
    decreases |deeds|
  {
    if deeds != [] {
      var a := Done(w, g, deeds[0]);
      if deeds[0].Command? {
        CommandBalances(w, g, t, deeds[0].command, deeds[0].value);
      }
      RunBalances(w, a, Counted(g, t, deeds[0], a), deeds[1..]);
    }
  }

  /**
   In every run of commands, with any changes of mode between them, since the last reset: the player has 24 rounds less
   one for each shot, and six more if the pickup was taken; stamina is 100 less ten for each stroke and 25 for each
   spell, and what the pickup gave, which is at most twenty; the combo counts the strokes since the last spell.
   */
  lemma {:induction false} EveryRun(w: World, deeds: seq<Deed>)
    requires AllRecognized(deeds)
    ensures var g, t := Played(w, NEW_GAME, deeds), Tallied(w, NEW_GAME, NOTHING, deeds);
      && g.ammo == 24 - t.shots + (if g.pickup.active then 0 else 6)
      && g.stamina == 100 - 10 * t.strokes - 25 * t.spells + t.gained
      && (if g.pickup.active then t.gained == 0 else 0 <= t.gained <= 20)
      && g.combo == Min(1_000_000, t.chain) && g.ammo >= 0 && 0 <= g.stamina <= 100
  {
    RunBalances(w, NEW_GAME, NOTHING, deeds);
  }

  // ----- The clock -----

  function Commands(deeds: seq<Deed>): nat {
    if deeds == [] then 0 else (if deeds[0].Command? then 1 else 0) + Commands(deeds[1..])
  }

  /** The clock counts the commands, resets included. */
  lemma {:induction false} ClockCounts(w: World, g: Game, deeds: seq<Deed>)
    requires Staffed(g) && AllRecognized(deeds)
    ensures Played(w, g, deeds).tick == g.tick + Commands(deeds)
    decreases |deeds|
  {
    if deeds != [] {
      if deeds[0].Command? {
        Counters(w, g, deeds[0].command);
      }
      ClockCounts(w, Done(w, g, deeds[0]), deeds[1..]);
    }
  }
}
