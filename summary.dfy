/** The report screen: the per-set tables, the match totals fold, the
    derived percentages and the rows handed to the spreadsheet writer. */
module Summary {
  import opened Common
  import opened Types
  import App

  // ---------------------------------------------------------------------
  // Table rows

  /** One `[name, stats]` pair of a ledger's entries. */
  datatype Entry = Entry(name: string, stats: PlayerStats)

  /** The number of events recorded in a record, over all seven counters. */
  function Activity(s: PlayerStats): nat
  {
    s.rc + s.re + s.bc + s.bs + s.ace + s.ae + s.pt
  }

  function EntryNames(es: seq<Entry>): (r: seq<string>)
    ensures |r| == |es| && forall i :: 0 <= i < |es| ==> r[i] == es[i].name
  {
    if es == [] then [] else [es[0].name] + EntryNames(es[1..])
  }

  /** The entries of `names` whose counters are not all zero, in the order
      of `names`. */
  function ActiveEntries(names: seq<string>, m: map<string, PlayerStats>): (r: seq<Entry>)
    requires forall n :: n in names ==> n in m
    ensures forall i :: 0 <= i < |r| ==> r[i].name in m && m[r[i].name] == r[i].stats && Activity(r[i].stats) > 0
    ensures forall n :: n in names && Activity(m[n]) > 0 ==> n in EntryNames(r)
    ensures Subseq(EntryNames(r), names)
  {
    if names == [] then []
    else
      var rest := ActiveEntries(names[1..], m);
      if Activity(m[names[0]]) > 0 then [Entry(names[0], m[names[0]])] + rest else rest
  }

  /** `playersWithStats`: the rows of a set's table. */
  function PlayersWithStats(data: SetHistory): (r: seq<Entry>)
    ensures forall i :: 0 <= i < |r| ==> r[i].name in data.stats && data.stats[r[i].name] == r[i].stats && Activity(r[i].stats) > 0
    ensures forall n :: n in data.stats && Activity(data.stats[n]) > 0 ==> n in EntryNames(r)
    ensures Subseq(EntryNames(r), data.order)
  {
    ActiveEntries(data.order, data.stats)
  }

  /** No more rows than players, and no player twice. */
  lemma RowsDistinct(data: SetHistory)
    ensures |PlayersWithStats(data)| <= |data.order| && NoDup(EntryNames(PlayersWithStats(data)))
  {
    SubseqElements(EntryNames(PlayersWithStats(data)), data.order);
    SubseqNoDup(EntryNames(PlayersWithStats(data)), data.order);
  }

  // ---------------------------------------------------------------------
  // Derived figures

  /** A percentage cell: "-" when there is nothing to divide by. */
  datatype Rate = Dash | Percent(value: nat)

  /** `Math.round(n / d * 100)` on exact rationals: 100·n/d rounded, halves
      upwards. */
  function RoundedPercent(n: nat, d: nat): (p: nat)
    requires 0 < d && n <= d
    ensures p <= 100
    ensures 2 * d * p <= 200 * n + d < 2 * d * p + 2 * d
  {
    var q := (200 * n + d) / (2 * d);
    DivBounds(200 * n + d, 2 * d, q);
    PercentAtMost100(n, d, q);
    q
  }

  lemma PercentAtMost100(n: nat, d: nat, q: nat)
    requires 0 < d && n <= d && 2 * d * q <= 200 * n + d
    ensures q <= 100
  {
  }

  lemma DivBounds(x: nat, y: nat, q: nat)
    requires 0 < y && q == x / y
    ensures y * q <= x < y * q + y
  {
  }

  /** `rP`: received serves kept in play, as a share of all receptions. */
  function ReceptionRate(s: PlayerStats): (r: Rate)
    ensures r == Dash <==> s.rc + s.re == 0
    ensures r.Percent? ==> r.value == RoundedPercent(s.rc, s.rc + s.re)
  {
    if s.rc + s.re > 0 then Percent(RoundedPercent(s.rc, s.rc + s.re)) else Dash
  }

  /** `sP`: good serves and aces, as a share of all serves (aces included). */
  function ServeRate(s: PlayerStats): (r: Rate)
    ensures r == Dash <==> s.ace + s.bc + s.bs == 0
    ensures r.Percent? ==> r.value == RoundedPercent(s.ace + s.bc, s.ace + s.bc + s.bs)
  {
    if s.ace + s.bc + s.bs > 0 then Percent(RoundedPercent(s.ace + s.bc, s.ace + s.bc + s.bs)) else Dash
  }

  /** The PT column: points plus aces. */
  function TotalPoints(s: PlayerStats): (r: nat)
    ensures r == 0 <==> s.pt == 0 && s.ace == 0
    ensures r <= Activity(s)
  {
    s.pt + s.ace
  }

  /** Three good receptions and one error show as 75%; no reception shows
      as "-". */
  lemma ReceptionExample()
    ensures ReceptionRate(PlayerStats(3, 1, 0, 0, 0, 0, 0)) == Percent(75)
    ensures ReceptionRate(Zero) == Dash
  {
    assert RoundedPercent(3, 4) == 75;
  }

  /** Four points and two aces make six points. */
  lemma TotalPointsExample()
    ensures TotalPoints(PlayerStats(0, 0, 0, 0, 2, 0, 4)) == 6
  {
  }

  /** An ace counts twice: as a serve that succeeded (numerator and
      denominator of the serve rate) and as a point. A point tap only adds a
      point; no other tap changes the points. */
  lemma TapEffects(s: PlayerStats, k: StatKey)
    ensures var s' := With(s, k, Get(s, k) + 1);
      && TotalPoints(s') == TotalPoints(s) + (if k == Ace || k == Pt then 1 else 0)
      && s'.ace + s'.bc == s.ace + s.bc + (if k == Ace || k == Bc then 1 else 0)
      && s'.ace + s'.bc + s'.bs == s.ace + s.bc + s.bs + (if k == Ace || k == Bc || k == Bs then 1 else 0)
      && Activity(s') == Activity(s) + 1
  {
  }

  // ---------------------------------------------------------------------
  // On-screen tables

  /** One row of an on-screen table. */
  datatype DisplayRow = DisplayRow(
    name: string, rc: nat, re: nat, receptionRate: Rate,
    bc: nat, bs: nat, ace: nat, serveRate: Rate, ae: nat, points: nat)

  /** A row shows the entry's counters; each rate is "-" exactly when its
      denominator is zero and otherwise a percentage of at most 100. */
  function DisplayRowOf(e: Entry): (r: DisplayRow)
    ensures r.name == e.name && r.rc == e.stats.rc && r.re == e.stats.re && r.bc == e.stats.bc
    ensures r.bs == e.stats.bs && r.ace == e.stats.ace && r.ae == e.stats.ae
    ensures r.receptionRate == ReceptionRate(e.stats) && r.serveRate == ServeRate(e.stats)
    ensures r.receptionRate == Dash <==> r.rc + r.re == 0
    ensures r.serveRate == Dash <==> r.ace + r.bc + r.bs == 0
    ensures r.receptionRate.Percent? ==> r.receptionRate.value <= 100
    ensures r.serveRate.Percent? ==> r.serveRate.value <= 100
    ensures r.points == e.stats.pt + r.ace
  {
    var s := e.stats;
    DisplayRow(e.name, s.rc, s.re, ReceptionRate(s), s.bc, s.bs, s.ace, ServeRate(s), s.ae, TotalPoints(s))
  }

  /** A table's body: the "no data" line, or its rows. */
  datatype TableBody = NoData | Rows(rows: seq<DisplayRow>)

  /** `Table`: the rows of the players with activity, or the "no data" line
      when there are none. */
  function Table(data: SetHistory): (t: TableBody)
    ensures t == NoData <==> forall n :: n in data.stats ==> Activity(data.stats[n]) == 0
    ensures t.Rows? ==> (|t.rows| == |PlayersWithStats(data)| &&
              forall i :: 0 <= i < |t.rows| ==> t.rows[i] == DisplayRowOf(PlayersWithStats(data)[i]))
  {
    var es := PlayersWithStats(data);
    if |es| == 0 then NoData else Rows(seq(|es|, i requires 0 <= i < |es| => DisplayRowOf(es[i])))
  }

  // ---------------------------------------------------------------------
  // Match totals

  /** The record of `name` in a set, or zeros when the set lacks the name. */
  function Lookup(l: SetHistory, name: string): PlayerStats
  {
    if name in l.stats then l.stats[name] else Zero
  }

  /** The field-by-field sum of the records of `name` over the sets. */
  function SumFor(history: seq<SetHistory>, name: string): PlayerStats
  {
    if history == [] then Zero
    else Plus(SumFor(history[..|history| - 1], name), Lookup(history[|history| - 1], name))
  }

  /** What `calculateTotals` returns: the seeded ledger of the current
      roster, each record replaced by the sum over the history. */
  function Totals(history: seq<SetHistory>, roster: seq<PlayerInfo>): (r: SetHistory)
    ensures r.stats.Keys == App.ActiveSet(roster)
    ensures r.order == App.Seeded(roster).order
  {
    var seed := App.Seeded(roster);
    Ledger(seed.order, map n | n in seed.stats :: SumFor(history, n))
  }

  /** `calculateTotals`: seeds the totals from the roster, then adds every
      set in turn. */
  method CalculateTotals(setsHistory: seq<SetHistory>, roster: seq<PlayerInfo>) returns (totals: SetHistory)
    ensures totals == Totals(setsHistory, roster)
  {
    totals := App.SeedLedger(roster);
    ghost var seed := totals;
    for i := 0 to |setsHistory|
      invariant totals.order == seed.order && totals.stats.Keys == seed.stats.Keys
      invariant forall n :: n in totals.stats ==> totals.stats[n] == SumFor(setsHistory[..i], n)
    {
      totals := AddSet(totals, setsHistory[i]);
      assert setsHistory[..i + 1][..i] == setsHistory[..i];
    }
    assert setsHistory[..|setsHistory|] == setsHistory;
  }

  /** The body of the loop over sets: every name of the set that the totals
      hold gets the set's record added; other names of the set are skipped. */
  method AddSet(totals: SetHistory, setData: SetHistory) returns (t: SetHistory)
    ensures t.order == totals.order && t.stats.Keys == totals.stats.Keys
    ensures forall n :: n in t.stats ==> t.stats[n] == Plus(totals.stats[n], Lookup(setData, n))
  {
    t := totals;
    for j := 0 to |setData.order|
      invariant t.order == totals.order && t.stats.Keys == totals.stats.Keys
      invariant forall n :: n in t.stats && n !in setData.order[..j] ==> t.stats[n] == totals.stats[n]
      invariant forall n :: n in t.stats && n in setData.order[..j] ==> t.stats[n] == Plus(totals.stats[n], setData.stats[n])
    {
      var name := setData.order[j];
      assert name !in setData.order[..j] by {
        forall q | 0 <= q < j ensures setData.order[..j][q] != name {
          assert setData.order[..j][q] == setData.order[q];
        }
      }
      assert setData.order[..j + 1] == setData.order[..j] + [name];
      if name in t.stats {
        t := AddRecord(t, name, setData.stats[name]);
      }
    }
    assert setData.order[..|setData.order|] == setData.order;
  }

  /** The body of the loop over a record's keys: `totals[name][k] += add[k]`
      for each of the seven counters in turn. */
  method AddRecord(totals: SetHistory, name: string, add: PlayerStats) returns (t: SetHistory)
    requires name in totals.stats
    ensures t.order == totals.order
    ensures t.stats == totals.stats[name := Plus(totals.stats[name], add)]
  {
    t := totals;
    for q := 0 to |AllKeys|
      invariant t.order == totals.order && t.stats.Keys == totals.stats.Keys
      invariant forall n :: n in t.stats && n != name ==> t.stats[n] == totals.stats[n]
      invariant forall q' :: 0 <= q' < q ==> Get(t.stats[name], AllKeys[q']) == Get(totals.stats[name], AllKeys[q']) + Get(add, AllKeys[q'])
      invariant forall q' :: q <= q' < |AllKeys| ==> Get(t.stats[name], AllKeys[q']) == Get(totals.stats[name], AllKeys[q'])
    {
      var k := AllKeys[q];
      t := Ledger(t.order, t.stats[name := With(t.stats[name], k, Get(t.stats[name], k) + Get(add, k))]);
    }
    StatsEqual(t.stats[name], Plus(totals.stats[name], add));
  }

  // ---------------------------------------------------------------------
  // Properties of the totals

  /** Counter `k` of `name` summed over the sets that contain `name`, from
      the first set on; a set without the name adds nothing. */
  function FieldTotal(history: seq<SetHistory>, name: string, k: StatKey): nat
  {
    if history == [] then 0
    else (if name in history[0].stats then Get(history[0].stats[name], k) else 0) + FieldTotal(history[1..], name, k)
  }

  lemma {:induction false} FieldTotalAppend(history: seq<SetHistory>, last: SetHistory, name: string, k: StatKey)
    ensures FieldTotal(history + [last], name, k) == FieldTotal(history, name, k) + Get(Lookup(last, name), k)
    decreases |history|
  {
    if history == [] {
      assert [last][1..] == [];
    } else {
      assert (history + [last])[1..] == history[1..] + [last];
      FieldTotalAppend(history[1..], last, name, k);
    }
  }

  lemma {:induction false} SumForFieldwise(history: seq<SetHistory>, name: string, k: StatKey)
    ensures Get(SumFor(history, name), k) == FieldTotal(history, name, k)
    decreases |history|
  {
    if history != [] {
      var init := history[..|history| - 1];
      SumForFieldwise(init, name, k);
      FieldTotalAppend(init, history[|history| - 1], name, k);
      assert init + [history[|history| - 1]] == history;
    }
  }

  /** Every counter of every player in the totals is that counter summed
      over the sets that contain the player. */
  lemma TotalsAreSums(history: seq<SetHistory>, roster: seq<PlayerInfo>, name: string, k: StatKey)
    requires name in Totals(history, roster).stats
    ensures Get(Totals(history, roster).stats[name], k) == FieldTotal(history, name, k)
  {
    SumForFieldwise(history, name, k);
  }

  /** A player who is absent from the current roster has no totals, even if
      some closed set recorded events for that name. */
  lemma TotalsExcludeInactive(history: seq<SetHistory>, roster: seq<PlayerInfo>, name: string)
    requires forall i :: 0 <= i < |roster| && roster[i].name == name ==> roster[i].isAbsent
    ensures name !in Totals(history, roster).stats
  {
  }

  /** With no closed set the totals are the seeded ledger: every player of
      the roster at zero. */
  lemma TotalsOfNoSets(roster: seq<PlayerInfo>)
    ensures Totals([], roster) == App.Seeded(roster)
    ensures forall n :: n in Totals([], roster).stats ==> Totals([], roster).stats[n] == Zero
  {
    var t := Totals([], roster);
    var seed := App.Seeded(roster);
    assert t.stats == seed.stats;
  }

  lemma PlusZero(a: PlayerStats)
    ensures Plus(a, Zero) == a && Plus(Zero, a) == a
  {
  }

  lemma PlusAssoc(a: PlayerStats, b: PlayerStats, c: PlayerStats)
    ensures Plus(Plus(a, b), c) == Plus(a, Plus(b, c))
  {
  }

  lemma PlusComm(a: PlayerStats, b: PlayerStats)
    ensures Plus(a, b) == Plus(b, a)
  {
  }

  lemma {:induction false} SumForConcat(a: seq<SetHistory>, b: seq<SetHistory>, name: string)
    ensures SumFor(a + b, name) == Plus(SumFor(a, name), SumFor(b, name))
    decreases |b|
  {
    if b == [] {
      assert a + b == a;
      PlusZero(SumFor(a, name));
    } else {
      var b', x := b[..|b| - 1], b[|b| - 1];
      assert (a + b)[..|a + b| - 1] == a + b';
      assert (a + b)[|a + b| - 1] == x;
      SumForConcat(a, b', name);
      PlusAssoc(SumFor(a, name), SumFor(b', name), Lookup(x, name));
    }
  }

  /** Reordering the closed sets does not change anyone's sums. */
  lemma {:induction false} SumForPermutation(h1: seq<SetHistory>, h2: seq<SetHistory>, name: string)
    requires multiset(h1) == multiset(h2)
    ensures SumFor(h1, name) == SumFor(h2, name)
    decreases |h1|
  {
    if h1 == [] {
      assert |h2| == |multiset(h2)| == 0;
    } else {
      var init, x := h1[..|h1| - 1], h1[|h1| - 1];
      assert h1 == init + [x];
      assert x in multiset(h2);
      var i :| 0 <= i < |h2| && h2[i] == x;
      var a, b := h2[..i], h2[i + 1..];
      assert h2 == a + [x] + b;
      assert multiset(init) == multiset(a + b) by {
        var mi, ma, mb, mx := multiset(init), multiset(a), multiset(b), multiset{x};
        assert mi + mx == ma + mx + mb;
        assert mi == (mi + mx) - mx;
        assert ma + mb == (ma + mx + mb) - mx;
      }
      SumForPermutation(init, a + b, name);
      var sa, sb, lx := SumFor(a, name), SumFor(b, name), Lookup(x, name);
      assert SumFor(h1, name) == Plus(SumFor(init, name), lx);
      SumForConcat(a, b, name);
      SumForConcat(a + [x], b, name);
      SumForConcat(a, [x], name);
      assert SumFor([x], name) == Plus(Zero, lx) by {
        assert [x][..0] == [];
      }
      PlusZero(lx);
      calc {
        SumFor(h2, name);
        Plus(SumFor(a + [x], name), sb);
        Plus(Plus(sa, lx), sb);
        { PlusAssoc(sa, lx, sb); PlusComm(lx, sb); PlusAssoc(sa, sb, lx); }
        Plus(Plus(sa, sb), lx);
        Plus(SumFor(init, name), lx);
        SumFor(h1, name);
      }
    }
  }

  /** The totals do not depend on the order of the closed sets. */
  lemma TotalsOrderIndependent(h1: seq<SetHistory>, h2: seq<SetHistory>, roster: seq<PlayerInfo>)
    requires multiset(h1) == multiset(h2)
    ensures Totals(h1, roster) == Totals(h2, roster)
  {
    forall n | n in App.Seeded(roster).stats ensures SumFor(h1, n) == SumFor(h2, n) {
      SumForPermutation(h1, h2, n);
    }
  }

  /** A match of one set, seeded from the current roster, totals to exactly
      that set. */
  lemma TotalsOfOneSet(setData: SetHistory, roster: seq<PlayerInfo>)
    requires setData.order == App.Seeded(roster).order
    ensures Totals([setData], roster) == setData
  {
    var seed := App.Seeded(roster);
    var t := Totals([setData], roster);
    SameOrderSameKeys(setData, seed);
    assert [setData][..0] == [];
    forall n | n in t.stats ensures t.stats[n] == setData.stats[n] {
      assert SumFor([setData], n) == Plus(Zero, Lookup(setData, n));
      PlusZero(setData.stats[n]);
    }
  }

  lemma SameOrderSameKeys(a: SetHistory, b: SetHistory)
    requires a.order == b.order
    ensures a.stats.Keys == b.stats.Keys
  {
  }

  /** Roster {Anna}; set 1 gives Anna 3 points, set 2 gives Bea 5: the totals
      hold Anna's 3 points and no record for Bea. */
  lemma ExclusionExample()
    ensures
      var anna := PlayerStats(0, 0, 0, 0, 0, 0, 3);
      var bea := PlayerStats(0, 0, 0, 0, 0, 0, 5);
      Totals([Ledger(["Anna"], map["Anna" := anna]), Ledger(["Bea"], map["Bea" := bea])],
             [PlayerInfo("Anna", false)])
        == Ledger(["Anna"], map["Anna" := anna])
  {
    var anna := PlayerStats(0, 0, 0, 0, 0, 0, 3);
    var bea := PlayerStats(0, 0, 0, 0, 0, 0, 5);
    var s1: SetHistory := Ledger(["Anna"], map["Anna" := anna]);
    var s2: SetHistory := Ledger(["Bea"], map["Bea" := bea]);
    var roster := [PlayerInfo("Anna", false)];
    ExclusionSeed(roster);
    ExclusionSum(s1, s2, anna);
    var t := Totals([s1, s2], roster);
    assert t.stats.Keys == {"Anna"};
    assert t.stats["Anna"] == anna;
    assert t.stats == map["Anna" := anna];
  }

  lemma ExclusionSeed(roster: seq<PlayerInfo>)
    requires roster == [PlayerInfo("Anna", false)]
    ensures App.Seeded(roster) == Ledger(["Anna"], map["Anna" := Zero])
  {
    assert roster[..0] == [];
  }

  lemma ExclusionSum(s1: SetHistory, s2: SetHistory, anna: PlayerStats)
    requires s1 == Ledger(["Anna"], map["Anna" := anna])
    requires "Anna" !in s2.stats
    ensures SumFor([s1, s2], "Anna") == anna
  {
    assert [s1, s2][..1] == [s1] && [s1][..0] == [];
    assert SumFor([s1], "Anna") == Plus(Zero, anna);
  }

  /** Players A and B; three points for A, an ace for B and a point for C,
      who is not on the roster. The closed set holds A with 3 points and B
      with 1 ace, nothing for C, and a one-set match totals to that set. */
  lemma ScenarioExample()
    ensures
      var roster := [PlayerInfo("A", false), PlayerInfo("B", false)];
      var events := [App.Event("A", Pt), App.Event("A", Pt), App.Event("A", Pt),
                     App.Event("B", Ace), App.Event("C", Pt)];
      var closed := App.ApplyEvents(App.Seeded(roster), events);
      && closed == Ledger(["A", "B"], map["A" := PlayerStats(0, 0, 0, 0, 0, 0, 3),
                                          "B" := PlayerStats(0, 0, 0, 0, 1, 0, 0)])
      && Totals([closed], roster) == closed
  {
    var roster := [PlayerInfo("A", false), PlayerInfo("B", false)];
    var events := [App.Event("A", Pt), App.Event("A", Pt), App.Event("A", Pt),
                   App.Event("B", Ace), App.Event("C", Pt)];
    var seed := Ledger(["A", "B"], map["A" := Zero, "B" := Zero]);
    ScenarioSeed();
    ScenarioTaps(seed, events);
    TotalsOfOneSet(App.ApplyEvents(seed, events), roster);
  }

  lemma ScenarioSeed()
    ensures App.Seeded([PlayerInfo("A", false), PlayerInfo("B", false)])
              == Ledger(["A", "B"], map["A" := Zero, "B" := Zero])
  {
    var roster := [PlayerInfo("A", false), PlayerInfo("B", false)];
    assert roster[..1] == [PlayerInfo("A", false)] && roster[..1][..0] == [];
    var seedA := App.Seeded(roster[..1]);
    assert App.Seeded(roster[..1][..0]) == Ledger([], map[]);
    assert seedA == Ledger(["A"], map["A" := Zero]);
    assert App.Seeded(roster) == App.Put(seedA, "B", Zero);
  }

  /** The ledger after each tap of the scenario, starting from the seed. */
  lemma ScenarioTaps(seed: SetHistory, events: seq<App.Event>)
    requires seed == Ledger(["A", "B"], map["A" := Zero, "B" := Zero])
    requires events == [App.Event("A", Pt), App.Event("A", Pt), App.Event("A", Pt),
                        App.Event("B", Ace), App.Event("C", Pt)]
    ensures App.ApplyEvents(seed, events)
              == Ledger(["A", "B"], map["A" := PlayerStats(0, 0, 0, 0, 0, 0, 3),
                                        "B" := PlayerStats(0, 0, 0, 0, 1, 0, 0)])
  {
    var l3 := App.AddStat(App.AddStat(App.AddStat(seed, "A", Pt), "A", Pt), "A", Pt);
    ScenarioPoints(seed);
    ScenarioAce(l3);
    ApplyInOrder(seed, events);
  }

  /** A run of taps is the taps applied one after another. */
  lemma ApplyInOrder(l: SetHistory, events: seq<App.Event>)
    requires |events| == 5
    ensures
      var e := events;
      App.ApplyEvents(l, e)
        == App.AddStat(App.AddStat(App.AddStat(App.AddStat(App.AddStat(l,
             e[0].player, e[0].key), e[1].player, e[1].key), e[2].player, e[2].key),
             e[3].player, e[3].key), e[4].player, e[4].key)
  {
    var e := events;
    var l1 := App.AddStat(l, e[0].player, e[0].key);
    var l2 := App.AddStat(l1, e[1].player, e[1].key);
    var l3 := App.AddStat(l2, e[2].player, e[2].key);
    var l4 := App.AddStat(l3, e[3].player, e[3].key);
    assert App.ApplyEvents(l, e) == App.ApplyEvents(l1, e[1..]);
    assert App.ApplyEvents(l1, e[1..]) == App.ApplyEvents(l2, e[2..]);
    assert App.ApplyEvents(l2, e[2..]) == App.ApplyEvents(l3, e[3..]);
    assert App.ApplyEvents(l3, e[3..]) == App.ApplyEvents(l4, e[4..]);
    var l5 := App.AddStat(l4, e[4].player, e[4].key);
    assert e[4..][1..] == [];
    assert App.ApplyEvents(l4, e[4..]) == App.ApplyEvents(l5, []) == l5;
  }

  /** Three point taps for A, one at a time. */
  lemma ScenarioPoints(seed: SetHistory)
    requires seed == Ledger(["A", "B"], map["A" := Zero, "B" := Zero])
    ensures App.AddStat(App.AddStat(App.AddStat(seed, "A", Pt), "A", Pt), "A", Pt)
              == Ledger(["A", "B"], map["A" := PlayerStats(0, 0, 0, 0, 0, 0, 3), "B" := Zero])
  {
    assert Zero == PlayerStats(0, 0, 0, 0, 0, 0, 0);
    PointForA(seed, 0);
    PointForA(App.AddStat(seed, "A", Pt), 1);
    PointForA(App.AddStat(App.AddStat(seed, "A", Pt), "A", Pt), 2);
  }

  /** One point tap for A while B has nothing. */
  lemma PointForA(l: SetHistory, n: nat)
    requires l == Ledger(["A", "B"], map["A" := PlayerStats(0, 0, 0, 0, 0, 0, n), "B" := Zero])
    ensures App.AddStat(l, "A", Pt)
              == Ledger(["A", "B"], map["A" := PlayerStats(0, 0, 0, 0, 0, 0, n + 1), "B" := Zero])
  {
    assert l.stats["A" := PlayerStats(0, 0, 0, 0, 0, 0, n + 1)]
             == map["A" := PlayerStats(0, 0, 0, 0, 0, 0, n + 1), "B" := Zero];
  }

  /** The ace tap for B, then the tap for C, who has no record. */
  lemma ScenarioAce(l3: SetHistory)
    requires l3 == Ledger(["A", "B"], map["A" := PlayerStats(0, 0, 0, 0, 0, 0, 3), "B" := Zero])
    ensures App.AddStat(l3, "B", Ace)
              == Ledger(["A", "B"], map["A" := PlayerStats(0, 0, 0, 0, 0, 0, 3),
                                        "B" := PlayerStats(0, 0, 0, 0, 1, 0, 0)])
    ensures App.AddStat(App.AddStat(l3, "B", Ace), "C", Pt) == App.AddStat(l3, "B", Ace)
  {
    var l4 := App.AddStat(l3, "B", Ace);
    assert l4.stats == map["A" := PlayerStats(0, 0, 0, 0, 0, 0, 3),
                           "B" := PlayerStats(0, 0, 0, 0, 1, 0, 0)];
  }

  // ---------------------------------------------------------------------
  // Export rows and the workbook

  /** One row handed to the spreadsheet writer. */
  datatype ExportRow = ExportRow(
    player: string, receptionOk: nat, receptionError: nat, serveOk: nat,
    serveError: nat, ace: nat, attackError: nat, totalPoints: nat)

  /** An exported row loses nothing: the player's record is recovered from
      it, the points column giving back `pt` once the aces are taken off. */
  function ExportRowOf(e: Entry): (r: ExportRow)
    ensures r.player == e.name && RecordOf(r) == e.stats
    ensures r.totalPoints >= r.ace
  {
    var s := e.stats;
    ExportRow(e.name, s.rc, s.re, s.bc, s.bs, s.ace, s.ae, TotalPoints(s))
  }

  /** The record a spreadsheet row describes. */
  function RecordOf(x: ExportRow): PlayerStats
  {
    PlayerStats(x.receptionOk, x.receptionError, x.serveOk, x.serveError, x.ace, x.attackError,
                if x.totalPoints >= x.ace then x.totalPoints - x.ace else 0)
  }

  /** The rows of one sheet: the same filter as the on-screen table. */
  function ExportRows(data: SetHistory): (r: seq<ExportRow>)
    ensures |r| <= |data.order|
    ensures forall i :: 0 <= i < |r| ==> r[i].player in data.stats && Activity(data.stats[r[i].player]) > 0
  {
    var es := PlayersWithStats(data);
    RowsOfEntries(data, es);
    seq(|es|, i requires 0 <= i < |es| => ExportRowOf(es[i]))
  }

  lemma RowsOfEntries(data: SetHistory, es: seq<Entry>)
    requires es == PlayersWithStats(data)
    ensures |es| <= |data.order|
    ensures forall i :: 0 <= i < |es| ==> es[i].name in data.stats && Activity(data.stats[es[i].name]) > 0
  {
    RowsDistinct(data);
  }

  /** A spreadsheet row shows what an on-screen row shows, rates aside. */
  predicate ExportMatchesRow(x: ExportRow, d: DisplayRow)
  {
    && x.player == d.name && x.receptionOk == d.rc && x.receptionError == d.re
    && x.serveOk == d.bc && x.serveError == d.bs && x.ace == d.ace && x.attackError == d.ae
    && x.totalPoints == d.points
  }

  /** A sheet's rows are the on-screen table's rows without the rates: there
      are none exactly when the table shows its "no data" line, and
      otherwise row i shows the same player, counters and points. */
  lemma ExportMatchesTable(data: SetHistory)
    ensures ExportRows(data) == [] <==> Table(data) == NoData
    ensures Table(data).Rows? ==> |ExportRows(data)| == |Table(data).rows|
    ensures Table(data).Rows? ==> forall i :: 0 <= i < |ExportRows(data)| ==>
      ExportMatchesRow(ExportRows(data)[i], Table(data).rows[i])
  {
    var es := PlayersWithStats(data);
    var r := ExportRows(data);
    var t := Table(data);
    if t.Rows? {
      forall i | 0 <= i < |r| ensures ExportMatchesRow(r[i], t.rows[i]) {
        assert r[i] == ExportRowOf(es[i]) && t.rows[i] == DisplayRowOf(es[i]);
      }
    }
  }

  /** A sheet is named after its set ("Set 1", "Set 2", ...) or is the totals
      sheet ("TOTALE"). */
  datatype SheetName = SetSheet(number: nat) | TotalSheet

  datatype Sheet = Sheet(name: SheetName, rows: seq<ExportRow>)

  /** The workbook has a sheet called `name`. */
  predicate HasSheet(wb: seq<Sheet>, name: SheetName)
  {
    exists j :: 0 <= j < |wb| && wb[j].name == name
  }

  /** The export rows of every closed set, set by set. */
  function SetRows(history: seq<SetHistory>): (r: seq<seq<ExportRow>>)
    ensures |r| == |history| && forall i :: 0 <= i < |history| ==> r[i] == ExportRows(history[i])
  {
    seq(|history|, i requires 0 <= i < |history| => ExportRows(history[i]))
  }

  /** The sheets of the closed sets, from their export rows: set i gets a
      sheet named `Set i+1` when it has a row. */
  function SetSheets(rowsPerSet: seq<seq<ExportRow>>): (r: seq<Sheet>)
    ensures |r| <= |rowsPerSet|
    ensures forall j :: 0 <= j < |r| ==> r[j].rows != []
  {
    if rowsPerSet == [] then []
    else
      var rows := rowsPerSet[|rowsPerSet| - 1];
      SetSheets(rowsPerSet[..|rowsPerSet| - 1]) + if rows != [] then [Sheet(SetSheet(|rowsPerSet|), rows)] else []
  }

  /** `sheet` is named after a set of `rowsPerSet`, carries that set's rows,
      and has at least one. */
  predicate NamedAfterItsSet(rowsPerSet: seq<seq<ExportRow>>, sheet: Sheet)
  {
    && sheet.name.SetSheet? && 1 <= sheet.name.number <= |rowsPerSet|
    && sheet.rows == rowsPerSet[sheet.name.number - 1] && sheet.rows != []
  }

  /** Each set sheet carries the rows of the set it is named after, and at
      least one. */
  lemma {:induction false} SetSheetsRows(rowsPerSet: seq<seq<ExportRow>>)
    ensures forall j :: 0 <= j < |SetSheets(rowsPerSet)| ==> NamedAfterItsSet(rowsPerSet, SetSheets(rowsPerSet)[j])
  {
    if rowsPerSet != [] {
      var n := |rowsPerSet|;
      var init := rowsPerSet[..n - 1];
      var front := SetSheets(init);
      var r := SetSheets(rowsPerSet);
      SetSheetsRows(init);
      forall j | 0 <= j < |r| ensures NamedAfterItsSet(rowsPerSet, r[j]) {
        if j < |front| {
          assert r[j] == front[j];
          assert NamedAfterItsSet(init, front[j]);
          assert init[r[j].name.number - 1] == rowsPerSet[r[j].name.number - 1];
        } else {
          assert r[j] == Sheet(SetSheet(n), rowsPerSet[n - 1]);
        }
      }
    }
  }

  /** The set sheets follow set order. */
  lemma {:induction false} SetSheetsOrdered(rowsPerSet: seq<seq<ExportRow>>)
    ensures forall j1, j2 :: 0 <= j1 < j2 < |SetSheets(rowsPerSet)| ==>
      && SetSheets(rowsPerSet)[j1].name.SetSheet? && SetSheets(rowsPerSet)[j2].name.SetSheet?
      && SetSheets(rowsPerSet)[j1].name.number < SetSheets(rowsPerSet)[j2].name.number
  {
    if rowsPerSet != [] {
      var n := |rowsPerSet|;
      var init := rowsPerSet[..n - 1];
      var front := SetSheets(init);
      var r := SetSheets(rowsPerSet);
      SetSheetsOrdered(init);
      SetSheetsRows(init);
      SetSheetsRows(rowsPerSet);
      forall j1, j2 | 0 <= j1 < j2 < |r|
        ensures r[j1].name.SetSheet? && r[j2].name.SetSheet? && r[j1].name.number < r[j2].name.number
      {
        assert r[j1] == front[j1];
        assert NamedAfterItsSet(init, front[j1]);
        if j2 < |front| {
          assert r[j2] == front[j2];
        } else {
          assert r[j2] == Sheet(SetSheet(n), rowsPerSet[n - 1]);
        }
      }
    } else {
      assert SetSheets(rowsPerSet) == [];
    }
  }

  /** Set i has a sheet exactly when it has a row. */
  lemma SetSheetsPresent(rowsPerSet: seq<seq<ExportRow>>)
    ensures forall i :: 0 <= i < |rowsPerSet| ==> (HasSheet(SetSheets(rowsPerSet), SetSheet(i + 1)) <==> rowsPerSet[i] != [])
  {
    forall i | 0 <= i < |rowsPerSet|
      ensures HasSheet(SetSheets(rowsPerSet), SetSheet(i + 1)) <==> rowsPerSet[i] != []
    {
      SetSheetPresent(rowsPerSet, i);
    }
  }

  lemma {:induction false} SetSheetPresent(rowsPerSet: seq<seq<ExportRow>>, i: nat)
    requires i < |rowsPerSet|
    ensures HasSheet(SetSheets(rowsPerSet), SetSheet(i + 1)) <==> rowsPerSet[i] != []
  {
    var n := |rowsPerSet|;
    var init := rowsPerSet[..n - 1];
    var rows := rowsPerSet[n - 1];
    var front := SetSheets(init);
    var r := SetSheets(rowsPerSet);
    assert forall j :: 0 <= j < |front| ==> r[j] == front[j];
    if i < n - 1 {
      SetSheetPresent(init, i);
      assert init[i] == rowsPerSet[i];
      if HasSheet(r, SetSheet(i + 1)) {
        var j :| 0 <= j < |r| && r[j].name == SetSheet(i + 1);
        assert j < |front|;
        assert front[j] == r[j];
      }
      if HasSheet(front, SetSheet(i + 1)) {
        var j :| 0 <= j < |front| && front[j].name == SetSheet(i + 1);
        assert r[j] == front[j];
      }
    } else {
      SetSheetsRows(init);
      assert forall j :: 0 <= j < |front| ==> front[j].name.SetSheet? && front[j].name.number < n;
      if rows != [] {
        assert r[|r| - 1].name == SetSheet(n);
      }
      if HasSheet(r, SetSheet(n)) {
        var j :| 0 <= j < |r| && r[j].name == SetSheet(n);
        assert j >= |front|;
      }
    }
  }

  /** The workbook `exportExcel` writes: the set sheets, then the totals
      sheet when the totals have a row. */
  function Workbook(history: seq<SetHistory>, totals: SetHistory): (r: seq<Sheet>)
    ensures forall j :: 0 <= j < |r| ==> r[j].rows != []
  {
    var total := ExportRows(totals);
    SetSheets(SetRows(history)) + if total != [] then [Sheet(TotalSheet, total)] else []
  }

  /** Closed set i has a sheet in the workbook exactly when it has a row. */
  lemma WorkbookSetSheets(history: seq<SetHistory>, totals: SetHistory)
    ensures forall i :: 0 <= i < |history| ==>
      (HasSheet(Workbook(history, totals), SetSheet(i + 1)) <==> ExportRows(history[i]) != [])
  {
    var rowsPerSet := SetRows(history);
    var sets := SetSheets(rowsPerSet);
    var wb := Workbook(history, totals);
    SetSheetsPresent(rowsPerSet);
    assert forall j :: 0 <= j < |sets| ==> wb[j] == sets[j];
    forall i | 0 <= i < |history|
      ensures HasSheet(wb, SetSheet(i + 1)) <==> rowsPerSet[i] != []
    {
      if HasSheet(wb, SetSheet(i + 1)) {
        var j :| 0 <= j < |wb| && wb[j].name == SetSheet(i + 1);
        assert j < |sets|;
        assert HasSheet(sets, SetSheet(i + 1));
      }
      if HasSheet(sets, SetSheet(i + 1)) {
        var j :| 0 <= j < |sets| && sets[j].name == SetSheet(i + 1);
        assert wb[j].name == SetSheet(i + 1);
      }
    }
  }

  /** The totals sheet exists exactly when the totals have a row, and then
      it is the last sheet. */
  lemma WorkbookTotalSheet(history: seq<SetHistory>, totals: SetHistory)
    ensures HasSheet(Workbook(history, totals), TotalSheet) <==> ExportRows(totals) != []
    ensures ExportRows(totals) != [] ==>
      Workbook(history, totals)[|Workbook(history, totals)| - 1] == Sheet(TotalSheet, ExportRows(totals))
  {
    var sets := SetSheets(SetRows(history));
    var wb := Workbook(history, totals);
    SetSheetsRows(SetRows(history));
    assert forall j :: 0 <= j < |sets| ==> wb[j] == sets[j];
    assert forall j :: 0 <= j < |sets| ==> sets[j].name.SetSheet?;
    if HasSheet(wb, TotalSheet) {
      var j :| 0 <= j < |wb| && wb[j].name == TotalSheet;
      assert j >= |sets|;
    }
    if ExportRows(totals) != [] {
      assert wb[|wb| - 1].name == TotalSheet;
    }
  }

  /** One more set adds its sheet, when it has a row, after the others. */
  lemma SetSheetsStep(rowsPerSet: seq<seq<ExportRow>>, i: nat)
    requires i < |rowsPerSet|
    ensures SetSheets(rowsPerSet[..i + 1])
              == SetSheets(rowsPerSet[..i])
                 + if rowsPerSet[i] != [] then [Sheet(SetSheet(i + 1), rowsPerSet[i])] else []
  {
    assert rowsPerSet[..i + 1][..i] == rowsPerSet[..i];
  }

  /** `exportExcel`, up to the spreadsheet calls: one pass over the closed
      sets appending the non-empty sheets, then the totals sheet. */
  method ExportWorkbook(setsHistory: seq<SetHistory>, totals: SetHistory) returns (wb: seq<Sheet>)
    ensures wb == Workbook(setsHistory, totals)
  {
    wb := [];
    ghost var rowsPerSet := SetRows(setsHistory);
    for i := 0 to |setsHistory|
      invariant wb == SetSheets(rowsPerSet[..i])
    {
      var wsData := ExportRows(setsHistory[i]);
      assert wsData == rowsPerSet[i];
      SetSheetsStep(rowsPerSet, i);
      if wsData != [] {
        wb := wb + [Sheet(SetSheet(i + 1), wsData)];
      }
    }
    assert rowsPerSet[..|setsHistory|] == rowsPerSet;
    var wsTotalData := ExportRows(totals);
    if wsTotalData != [] {
      wb := wb + [Sheet(TotalSheet, wsTotalData)];
    }
  }

  // ---------------------------------------------------------------------
  // The report screen

  datatype TableTitle = SetTitle(number: nat) | FinalTitle

  /** One `<Table>` of the report screen: its title and the ledger it is
      drawn from; `Table` gives what it shows. */
  datatype ReportTable = ReportTable(title: TableTitle, data: SetHistory)

  /** The tables on the report screen: one per closed set, then the match
      totals, but only when more than one set has been closed. */
  function Report(history: seq<SetHistory>, roster: seq<PlayerInfo>): (r: seq<ReportTable>)
    ensures |r| == |history| + (if |history| > 1 then 1 else 0)
    ensures forall i :: 0 <= i < |history| ==> r[i] == ReportTable(SetTitle(i + 1), history[i])
    ensures |history| > 1 ==> r[|history|] == ReportTable(FinalTitle, Totals(history, roster))
  {
    seq(|history|, i requires 0 <= i < |history| => ReportTable(SetTitle(i + 1), history[i]))
      + if |history| > 1 then [ReportTable(FinalTitle, Totals(history, roster))] else []
  }
}
