/** The app's data model: seven counters per player and set, a roster entry,
    one set's ledger and the four screens. */
module Types {
  import opened Common

  /** The counters of one player in one set: reception ok / error, serve ok /
      error, ace, attack error and point. They start at 0 and only grow. */
  datatype PlayerStats = PlayerStats(rc: nat, re: nat, bc: nat, bs: nat, ace: nat, ae: nat, pt: nat)

  /** The name of one counter, `keyof PlayerStats`. */
  datatype StatKey = Rc | Re | Bc | Bs | Ace | Ae | Pt

  /** The counters in the order they are declared, which is the order in
      which the keys of a stats record are enumerated. */
  const AllKeys: seq<StatKey> := [Rc, Re, Bc, Bs, Ace, Ae, Pt]

  const Zero: PlayerStats := PlayerStats(0, 0, 0, 0, 0, 0, 0)

  function Get(s: PlayerStats, k: StatKey): nat
  {
    match k
    case Rc => s.rc
    case Re => s.re
    case Bc => s.bc
    case Bs => s.bs
    case Ace => s.ace
    case Ae => s.ae
    case Pt => s.pt
  }

  /** The record with counter `k` replaced by `v`. */
  function With(s: PlayerStats, k: StatKey, v: nat): (r: PlayerStats)
    ensures Get(r, k) == v
    ensures forall k' :: k' != k ==> Get(r, k') == Get(s, k')
  {
    match k
    case Rc => s.(rc := v)
    case Re => s.(re := v)
    case Bc => s.(bc := v)
    case Bs => s.(bs := v)
    case Ace => s.(ace := v)
    case Ae => s.(ae := v)
    case Pt => s.(pt := v)
  }

  /** Field-by-field sum of two records. */
  function Plus(a: PlayerStats, b: PlayerStats): PlayerStats
  {
    PlayerStats(a.rc + b.rc, a.re + b.re, a.bc + b.bc, a.bs + b.bs, a.ace + b.ace, a.ae + b.ae, a.pt + b.pt)
  }

  /** A record is nothing but its seven counters: two records that agree on
      every key in AllKeys are the same record. */
  lemma StatsEqual(a: PlayerStats, b: PlayerStats)
    requires forall q :: 0 <= q < |AllKeys| ==> Get(a, AllKeys[q]) == Get(b, AllKeys[q])
    ensures a == b
  {
    assert Get(a, AllKeys[0]) == Get(b, AllKeys[0]);
    assert Get(a, AllKeys[1]) == Get(b, AllKeys[1]);
    assert Get(a, AllKeys[2]) == Get(b, AllKeys[2]);
    assert Get(a, AllKeys[3]) == Get(b, AllKeys[3]);
    assert Get(a, AllKeys[4]) == Get(b, AllKeys[4]);
    assert Get(a, AllKeys[5]) == Get(b, AllKeys[5]);
    assert Get(a, AllKeys[6]) == Get(b, AllKeys[6]);
  }

  /** Every counter name is listed in AllKeys, exactly once. */
  lemma AllKeysComplete(k: StatKey)
    ensures k in AllKeys
    ensures NoDup(AllKeys)
  {
  }

  /** A roster slot: a name and whether that player is absent. */
  datatype PlayerInfo = PlayerInfo(name: string, isAbsent: bool)

  /** One set's ledger, a record from player name to counters. A record
      enumerates its keys in insertion order, and the report lists rows in
      that order, so the order of the keys is kept beside the map. */
  datatype Ledger = Ledger(order: seq<string>, stats: map<string, PlayerStats>)
  {
    /** Each key is listed once, and the listed names are the keys. */
    predicate Valid()
    {
      && NoDup(order)
      && (forall n :: n in order ==> n in stats)
      && (forall n :: n in stats ==> n in order)
    }
  }

  /** A well-formed ledger (`SetHistory` in the app's own vocabulary). */
  type SetHistory = l: Ledger | l.Valid() witness Ledger([], map[])

  /** A name keys at most one record: the key list has one entry per key. */
  lemma {:induction false} OneRecordPerName(l: SetHistory)
    ensures |l.order| == |l.stats|
  {
    DistinctCard(l.order, l.stats.Keys);
  }

  lemma {:induction false} DistinctCard(s: seq<string>, keys: set<string>)
    requires NoDup(s)
    requires forall n :: n in s <==> n in keys
    ensures |s| == |keys|
    decreases |s|
  {
    if s != [] {
      var last := s[|s| - 1];
      var init := s[..|s| - 1];
      assert NoDup(init);
      assert last !in init by {
        forall i | 0 <= i < |init| ensures init[i] != last {
          assert init[i] == s[i];
        }
      }
      forall n ensures n in init <==> n in keys - {last} {
        if n in keys - {last} {
          assert n in s;
          var i :| 0 <= i < |s| && s[i] == n;
          assert i < |s| - 1;
          assert init[i] == n;
        }
      }
      DistinctCard(init, keys - {last});
    }
  }

  /** The four screens of the app. */
  datatype AppStep = ROSTER | SELECTION | GAME | SUMMARY
}
