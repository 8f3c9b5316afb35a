/** The lineup screen: choosing the six starters of a set. */
module Selection {
  import opened Common

  /** How many starters a set needs. */
  const LineupSize: nat := 6

  /** `selected.filter(s => s !== name)`. */
  function Without(sel: seq<string>, name: string): (r: seq<string>)
    ensures forall x :: x in r <==> x in sel && x != name
    ensures Subseq(r, sel)
  {
    if sel == [] then []
    else if sel[0] == name then
      var rest := Without(sel[1..], name);
      assert rest == [] || rest[0] != sel[0] by {
        if rest != [] {
          assert rest[0] in rest;
        }
      }
      rest
    else [sel[0]] + Without(sel[1..], name)
  }

  /** `filter` keeps every copy of every other name and no copy of `name`. */
  lemma {:induction false} WithoutCount(sel: seq<string>, name: string)
    ensures multiset(Without(sel, name)) == multiset(sel)[name := 0]
  {
    if sel != [] {
      assert sel == [sel[0]] + sel[1..];
      WithoutCount(sel[1..], name);
    }
  }

  /** `togglePlayer`'s new list: a selected name is taken out, the others
      keeping their order; an unselected name is appended while there is
      room for it; otherwise the selection is kept. */
  function Toggle(sel: seq<string>, name: string): (r: seq<string>)
    ensures name in sel ==> name !in r && Subseq(r, sel) && forall x :: x != name ==> (x in r <==> x in sel)
    ensures name in sel ==> multiset(r) == multiset(sel)[name := 0]
    ensures name !in sel && |sel| < LineupSize ==> r == sel + [name]
    ensures name !in sel && |sel| >= LineupSize ==> r == sel
  {
    if name in sel then WithoutCount(sel, name); Without(sel, name)
    else if |sel| < LineupSize then sel + [name]
    else sel
  }

  /** Filtering out a name that is not there changes nothing. */
  lemma {:induction false} WithoutAbsent(sel: seq<string>, name: string)
    requires name !in sel
    ensures Without(sel, name) == sel
  {
    if sel != [] {
      assert name !in sel[1..];
      WithoutAbsent(sel[1..], name);
    }
  }

  /** In a selection without repeats, taking a name out removes exactly
      its one slot. */
  lemma {:induction false} WithoutAt(sel: seq<string>, i: nat)
    requires NoDup(sel) && i < |sel|
    ensures Without(sel, sel[i]) == sel[..i] + sel[i + 1..]
  {
    var tail := sel[1..];
    TailFacts(sel);
    if i == 0 {
      WithoutAbsent(tail, sel[0]);
    } else {
      assert sel[0] != sel[i] && tail[i - 1] == sel[i];
      assert Without(sel, sel[i]) == [sel[0]] + Without(tail, sel[i]);
      WithoutAt(tail, i - 1);
      assert sel[..i] == [sel[0]] + tail[..i - 1];
      assert sel[i + 1..] == tail[i..];
    }
  }

  /** The tail of a selection without repeats has none, and lacks the head. */
  lemma TailFacts(sel: seq<string>)
    requires NoDup(sel) && sel != []
    ensures NoDup(sel[1..]) && sel[0] !in sel[1..]
  {
    var tail := sel[1..];
    forall a, b | 0 <= a < b < |tail| ensures tail[a] != tail[b] {
      assert tail[a] == sel[a + 1] && tail[b] == sel[b + 1];
    }
    forall a | 0 <= a < |tail| ensures tail[a] != sel[0] {
      assert tail[a] == sel[a + 1];
    }
  }

  /** A lineup of at most six distinct names stays one under any toggle. */
  lemma TogglePreservesLineup(sel: seq<string>, name: string)
    requires |sel| <= LineupSize && NoDup(sel)
    ensures |Toggle(sel, name)| <= LineupSize && NoDup(Toggle(sel, name))
  {
    if name in sel {
      SubseqElements(Without(sel, name), sel);
      SubseqNoDup(Without(sel, name), sel);
    }
  }

  /** Toggling an unselected name twice, when there is room for it, gives
      back the selection. */
  lemma ToggleTwice(sel: seq<string>, name: string)
    requires name !in sel && |sel| < LineupSize
    ensures Toggle(Toggle(sel, name), name) == sel
  {
    var added := sel + [name];
    assert Toggle(sel, name) == added;
    assert name in added;
    assert Without(added, name) == sel by {
      WithoutAppend(sel, name);
    }
  }

  lemma {:induction false} WithoutAppend(sel: seq<string>, name: string)
    requires name !in sel
    ensures Without(sel + [name], name) == sel
  {
    if sel == [] {
      assert [name][1..] == [];
    } else {
      assert (sel + [name])[1..] == sel[1..] + [name];
      assert name !in sel[1..];
      WithoutAppend(sel[1..], name);
    }
  }

  /** The lineup screen's state: the names picked so far. */
  class SelectionForm {
    var selected: seq<string>

    /** The screen opens with the starters the app still holds. */
    constructor (initialStarters: seq<string>)
      ensures selected == initialStarters
    {
      selected := initialStarters;
    }

    /** A tap on a roster tile. */
    method TogglePlayer(name: string)
      modifies this
      ensures selected == Toggle(old(selected), name)
    {
      if name in selected {
        selected := Without(selected, name);
      } else {
        if |selected| < LineupSize {
          selected := selected + [name];
        }
      }
    }

    /** The start button: hands the lineup on only when exactly six names
        are selected. */
    method Start() returns (started: Option<seq<string>>)
      ensures started.Some? <==> |selected| == LineupSize
      ensures started.Some? ==> started.value == selected
    {
      if |selected| == LineupSize {
        started := Some(selected);
      } else {
        started := None;
      }
    }
  }
}
