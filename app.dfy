/** The top-level screen component: the live ledger, the set history, and
    the handlers that move the app through ROSTER, SELECTION, GAME and
    SUMMARY. */
module App {
  import opened Common
  import opened Types

  /** Names of the roster entries that are not absent. */
  ghost function ActiveSet(players: seq<PlayerInfo>): set<string>
  {
    set i | 0 <= i < |players| && !players[i].isAbsent :: players[i].name
  }

  /** Names of the roster entries that are not absent, in roster order. */
  function ActiveNames(players: seq<PlayerInfo>): seq<string>
  {
    if players == [] then []
    else
      var p := players[|players| - 1];
      ActiveNames(players[..|players| - 1]) + if p.isAbsent then [] else [p.name]
  }

  /** `initial[name] = v`: a new key is appended, a key already present is
      given the new value in its old place. */
  function Put(l: SetHistory, name: string, v: PlayerStats): (r: SetHistory)
    ensures r.stats == l.stats[name := v]
    ensures r.stats.Keys == l.stats.Keys + {name} && r.stats[name] == v
    ensures |r.order| == |l.order| + (if name in l.stats then 0 else 1)
    ensures r.order[..|l.order|] == l.order
  {
    if name in l.stats then Ledger(l.order, l.stats[name := v])
    else Ledger(l.order + [name], l.stats[name := v])
  }

  /** The ledger that seeding a set from `players` produces: one zero record
      for every name that is not absent; a repeated name keeps the place of
      its first entry. */
  function Seeded(players: seq<PlayerInfo>): (r: SetHistory)
    ensures r.stats.Keys == ActiveSet(players)
    ensures forall n :: n in r.stats ==> r.stats[n] == Zero
  {
    if players == [] then Ledger([], map[])
    else
      var init := players[..|players| - 1];
      var p := players[|players| - 1];
      assert forall i :: 0 <= i < |init| ==> init[i] == players[i];
      assert ActiveSet(players) == ActiveSet(init) + if p.isAbsent then {} else {p.name};
      if p.isAbsent then Seeded(init) else Put(Seeded(init), p.name, Zero)
  }

  /** When no name is entered twice, the ledger lists the players in roster
      order. */
  lemma {:induction false} SeededFollowsRoster(players: seq<PlayerInfo>)
    requires NoDup(ActiveNames(players))
    ensures Seeded(players).order == ActiveNames(players)
  {
    if players != [] {
      var init := players[..|players| - 1];
      var p := players[|players| - 1];
      var names := ActiveNames(players);
      assert names == ActiveNames(init) + if p.isAbsent then [] else [p.name];
      assert NoDup(ActiveNames(init)) by {
        forall i, j | 0 <= i < j < |ActiveNames(init)|
          ensures ActiveNames(init)[i] != ActiveNames(init)[j]
        {
          assert ActiveNames(init)[i] == names[i] && ActiveNames(init)[j] == names[j];
        }
      }
      SeededFollowsRoster(init);
      if !p.isAbsent {
        assert p.name !in Seeded(init).order by {
          forall i | 0 <= i < |ActiveNames(init)| ensures ActiveNames(init)[i] != p.name {
            assert names[i] == ActiveNames(init)[i] && names[|names| - 1] == p.name;
          }
        }
      }
    }
  }

  /** `initStats`: builds the seeded ledger entry by entry. */
  method SeedLedger(players: seq<PlayerInfo>) returns (initial: SetHistory)
    ensures initial == Seeded(players)
    ensures initial.stats.Keys == ActiveSet(players)
    ensures forall n :: n in initial.stats ==> initial.stats[n] == Zero
  {
    initial := Ledger([], map[]);
    for i := 0 to |players|
      invariant initial == Seeded(players[..i])
    {
      var p := players[i];
      SeededStep(players, i);
      if !p.isAbsent {
        initial := Put(initial, p.name, Zero);
      }
    }
    assert players[..|players|] == players;
  }

  /** One more roster entry seeds one more name, unless it is absent. */
  lemma SeededStep(players: seq<PlayerInfo>, i: nat)
    requires i < |players|
    ensures Seeded(players[..i + 1])
              == if players[i].isAbsent then Seeded(players[..i]) else Put(Seeded(players[..i]), players[i].name, Zero)
  {
    assert players[..i + 1][..i] == players[..i];
  }

  /** `handleAddStat`: one more event of kind `key` for `playerName`. */
  function AddStat(prev: SetHistory, playerName: string, key: StatKey): (r: SetHistory)
    ensures playerName !in prev.stats ==> r == prev
    ensures r.order == prev.order && r.stats.Keys == prev.stats.Keys
    ensures playerName in prev.stats ==>
              && Get(r.stats[playerName], key) == Get(prev.stats[playerName], key) + 1
              && forall k :: k != key ==> Get(r.stats[playerName], k) == Get(prev.stats[playerName], k)
    ensures forall n :: n in prev.stats && n != playerName ==> r.stats[n] == prev.stats[n]
  {
    if playerName !in prev.stats then prev
    else
      var s := prev.stats[playerName];
      Ledger(prev.order, prev.stats[playerName := With(s, key, Get(s, key) + 1)])
  }

  /** One tap on the stat grid. */
  datatype Event = Event(player: string, key: StatKey)

  /** The ledger after a run of taps, applied in order. */
  function ApplyEvents(l: SetHistory, events: seq<Event>): (r: SetHistory)
    ensures r.order == l.order && r.stats.Keys == l.stats.Keys
    decreases |events|
  {
    if events == [] then l
    else ApplyEvents(AddStat(l, events[0].player, events[0].key), events[1..])
  }

  /** Counter `k` summed over the names `names`. */
  function SumOver(names: seq<string>, m: map<string, PlayerStats>, k: StatKey): nat
    requires forall n :: n in names ==> n in m
  {
    if names == [] then 0 else Get(m[names[0]], k) + SumOver(names[1..], m, k)
  }

  /** Counter `k` summed over every player of the ledger. */
  function FieldSum(l: SetHistory, k: StatKey): nat
  {
    SumOver(l.order, l.stats, k)
  }

  /** How many of the taps are of kind `k` and name a player in `keys`. */
  function CountEvents(events: seq<Event>, keys: set<string>, k: StatKey): nat
  {
    if events == [] then 0
    else (if events[0].key == k && events[0].player in keys then 1 else 0) + CountEvents(events[1..], keys, k)
  }

  /** Replacing the record of one listed name changes the sum by the
      difference of that record's counter. */
  lemma {:induction false} SumOverUpdate(names: seq<string>, m: map<string, PlayerStats>, x: string, v: PlayerStats, k: StatKey)
    requires NoDup(names)
    requires forall n :: n in names ==> n in m
    ensures SumOver(names, m[x := v], k) + (if x in names then Get(m[x], k) else 0)
         == SumOver(names, m, k) + (if x in names then Get(v, k) else 0)
  {
    if names != [] {
      assert NoDup(names[1..]) by {
        forall i, j | 0 <= i < j < |names[1..]| ensures names[1..][i] != names[1..][j] {
          assert names[1..][i] == names[i + 1] && names[1..][j] == names[j + 1];
        }
      }
      SumOverUpdate(names[1..], m, x, v, k);
      if names[0] == x {
        assert x !in names[1..] by {
          forall i | 0 <= i < |names[1..]| ensures names[1..][i] != x {
            assert names[1..][i] == names[i + 1];
          }
        }
      } else {
        assert x in names <==> x in names[1..];
      }
    }
  }

  /** One tap on a known player raises the sum of its own counter by one and
      leaves every other counter's sum alone; a tap on an unknown name adds
      nothing. */
  lemma AddStatFieldSum(l: SetHistory, playerName: string, key: StatKey, k: StatKey)
    ensures FieldSum(AddStat(l, playerName, key), k)
         == FieldSum(l, k) + (if playerName in l.stats && key == k then 1 else 0)
  {
    if playerName in l.stats {
      var s := l.stats[playerName];
      SumOverUpdate(l.order, l.stats, playerName, With(s, key, Get(s, key) + 1), k);
    }
  }

  /** After any run of taps, every counter summed over the players equals
      its value before plus the number of taps of that kind on players of
      the ledger; taps on other names leave no trace. */
  lemma {:induction false} EventsCounted(l: SetHistory, events: seq<Event>, k: StatKey)
    ensures FieldSum(ApplyEvents(l, events), k) == FieldSum(l, k) + CountEvents(events, l.stats.Keys, k)
    decreases |events|
  {
    if events != [] {
      var l' := AddStat(l, events[0].player, events[0].key);
      AddStatFieldSum(l, events[0].player, events[0].key, k);
      EventsCounted(l', events[1..], k);
    }
  }

  /** For a freshly seeded set, the sums are the tap counts. */
  lemma SeededThenEvents(players: seq<PlayerInfo>, events: seq<Event>, k: StatKey)
    ensures FieldSum(ApplyEvents(Seeded(players), events), k) == CountEvents(events, ActiveSet(players), k)
  {
    var l := Seeded(players);
    EventsCounted(l, events, k);
    ZeroSum(l.order, l.stats, k);
  }

  lemma {:induction false} ZeroSum(names: seq<string>, m: map<string, PlayerStats>, k: StatKey)
    requires forall n :: n in names ==> n in m && m[n] == Zero
    ensures SumOver(names, m, k) == 0
  {
    if names != [] {
      ZeroSum(names[1..], m, k);
    }
  }

  /** The app's state: the fields the component keeps and its handlers
      overwrite. */
  class AppState {
    var step: AppStep
    var matchName: string
    var roster: seq<PlayerInfo>
    var starters: seq<string>
    var currentStats: SetHistory
    var setsHistory: seq<SetHistory>
    var showConfirmTerminate: bool

    /** The live ledger has exactly the keys, in the same order, that
        seeding the current roster gives. */
    ghost predicate Valid()
      reads this
    {
      currentStats.order == Seeded(roster).order && currentStats.stats.Keys == Seeded(roster).stats.Keys
    }

    /** The set number in the header: the set just closed on the summary
        screen, the set being prepared or played elsewhere. */
    function SetNumber(): (r: nat)
      reads this
      ensures r == |setsHistory| <==> step == SUMMARY
      ensures step != SUMMARY ==> r == |setsHistory| + 1 && r >= 1
    {
      if step == SUMMARY then |setsHistory| else |setsHistory| + 1
    }

    /** Start-up: twelve empty absent slots, nothing recorded. */
    constructor ()
      ensures Valid()
      ensures step == ROSTER && matchName == ""
      ensures |roster| == 12 && forall i :: 0 <= i < 12 ==> roster[i] == PlayerInfo("", true)
      ensures starters == [] && currentStats == Ledger([], map[]) && setsHistory == []
      ensures !showConfirmTerminate
    {
      step := ROSTER;
      matchName := "";
      roster := seq(12, _ => PlayerInfo("", true));
      starters := [];
      currentStats := Ledger([], map[]);
      setsHistory := [];
      showConfirmTerminate := false;
      new;
      assert ActiveSet(roster) == {};
      assert Seeded(roster).order == [] by {
        OneRecordPerName(Seeded(roster));
      }
    }

    /** `initStats`: replaces the live ledger with a freshly seeded one. */
    method InitStats(players: seq<PlayerInfo>)
      requires players == roster
      modifies this`currentStats
      ensures Valid()
      ensures currentStats == Seeded(players)
    {
      currentStats := SeedLedger(players);
    }

    /** The roster screen's "next": stores the match name ("Gara" when left
        empty) and the roster, reseeds the ledger, discarding any counts of
        the set in progress, and opens the lineup screen. */
    method HandleSetupSelection(name: string, updatedRoster: seq<PlayerInfo>)
      modifies this
      ensures Valid()
      ensures matchName == if name == "" then "Gara" else name
      ensures roster == updatedRoster
      ensures currentStats == Seeded(updatedRoster)
      ensures step == SELECTION
      ensures starters == old(starters) && setsHistory == old(setsHistory)
      ensures showConfirmTerminate == old(showConfirmTerminate)
    {
      matchName := if name == "" then "Gara" else name;
      roster := updatedRoster;
      InitStats(updatedRoster);
      step := SELECTION;
    }

    /** The lineup screen's start: stores the six starters, opens the game. */
    method HandleStartGame(selectedStarters: seq<string>)
      requires Valid()
      modifies this`starters, this`step
      ensures Valid()
      ensures starters == selectedStarters && step == GAME
    {
      starters := selectedStarters;
      step := GAME;
    }

    /** A tap on the stat grid; only the live ledger changes, so no closed
        set is affected. */
    method HandleAddStat(playerName: string, key: StatKey)
      requires Valid()
      modifies this`currentStats
      ensures Valid()
      ensures currentStats == AddStat(old(currentStats), playerName, key)
      ensures setsHistory == old(setsHistory)
    {
      currentStats := AddStat(currentStats, playerName, key);
    }

    /** The game screen's "end set" button: asks for confirmation. */
    method RequestTerminate()
      requires Valid()
      modifies this`showConfirmTerminate
      ensures Valid() && showConfirmTerminate
    {
      showConfirmTerminate := true;
    }

    /** The confirmation dialog's cancel button. */
    method CancelTerminate()
      requires Valid()
      modifies this`showConfirmTerminate
      ensures Valid() && !showConfirmTerminate
    {
      showConfirmTerminate := false;
    }

    /** The confirmation dialog's confirm button: the live ledger, as it is
        now, becomes the last closed set; the summary opens. */
    method ExecuteTerminateSet()
      requires Valid()
      modifies this`setsHistory, this`step, this`showConfirmTerminate
      ensures Valid()
      ensures setsHistory == old(setsHistory) + [currentStats]
      ensures |setsHistory| == |old(setsHistory)| + 1
      ensures setsHistory[|setsHistory| - 1] == currentStats
      ensures setsHistory[..|old(setsHistory)|] == old(setsHistory)
      ensures step == SUMMARY && !showConfirmTerminate
      ensures old(step) != SUMMARY ==> SetNumber() == old(SetNumber())
    {
      var statsSnapshot := currentStats;
      setsHistory := setsHistory + [statsSnapshot];
      step := SUMMARY;
      showConfirmTerminate := false;
    }

    /** The summary's "next set": reseeds the ledger from the roster, clears
        the starters and opens the lineup screen for the following set. */
    method HandleGoToNextSet()
      requires Valid()
      modifies this`currentStats, this`starters, this`step
      ensures Valid()
      ensures currentStats == Seeded(roster)
      ensures starters == [] && step == SELECTION
      ensures setsHistory == old(setsHistory)
      ensures SetNumber() == |setsHistory| + 1
    {
      InitStats(roster);
      starters := [];
      step := SELECTION;
    }

    /** The game screen's substitutions button: back to the lineup screen,
        with the live ledger and the starters kept. */
    method HandleSubstitutions()
      requires Valid()
      modifies this`step
      ensures Valid() && step == SELECTION
    {
      step := SELECTION;
    }

    /** The lineup screen's back arrow: back to the roster screen. */
    method HandleBackToRoster()
      requires Valid()
      modifies this`step
      ensures Valid() && step == ROSTER
    {
      step := ROSTER;
    }
  }
}
