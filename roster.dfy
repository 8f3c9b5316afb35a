/** The roster screen: twelve text slots turned into roster entries. */
module Roster {
  import opened Types

  /** The code points String.prototype.trim removes: the ECMAScript
      WhiteSpace and LineTerminator characters. */
  predicate IsWhitespace(c: char)
  {
    || c == '\t' || c == '\n' || c == '\U{000B}' || c == '\U{000C}' || c == '\r' || c == ' '
    || c == '\U{00A0}' || c == '\U{1680}'
    || c == '\U{2000}' || c == '\U{2001}' || c == '\U{2002}' || c == '\U{2003}' || c == '\U{2004}'
    || c == '\U{2005}' || c == '\U{2006}' || c == '\U{2007}' || c == '\U{2008}' || c == '\U{2009}'
    || c == '\U{200A}' || c == '\U{2028}' || c == '\U{2029}' || c == '\U{202F}' || c == '\U{205F}'
    || c == '\U{3000}' || c == '\U{FEFF}'
  }

  /** Leading whitespace removed. */
  function TrimStart(s: string): (r: string)
    ensures |r| <= |s| && r == s[|s| - |r|..]
    ensures forall i :: 0 <= i < |s| - |r| ==> IsWhitespace(s[i])
    ensures r == [] || !IsWhitespace(r[0])
  {
    if s != [] && IsWhitespace(s[0]) then TrimStart(s[1..]) else s
  }

  /** Trailing whitespace removed. */
  function TrimEnd(s: string): (r: string)
    ensures |r| <= |s| && r == s[..|r|]
    ensures forall i :: |r| <= i < |s| ==> IsWhitespace(s[i])
    ensures r == [] || !IsWhitespace(r[|r| - 1])
  {
    if s != [] && IsWhitespace(s[|s| - 1]) then TrimEnd(s[..|s| - 1]) else s
  }

  /** `s.trim()`. */
  function Trim(s: string): (r: string)
    ensures r == [] <==> forall i :: 0 <= i < |s| ==> IsWhitespace(s[i])
  {
    var t := TrimStart(s);
    var r := TrimEnd(t);
    TrimBlank(s, t, r);
    r
  }

  /** A trimmed text that is not empty has whitespace at neither end. */
  lemma TrimmedEnds(s: string)
    ensures Trim(s) != [] ==> !IsWhitespace(Trim(s)[0]) && !IsWhitespace(Trim(s)[|Trim(s)| - 1])
  {
    TrimEnds(TrimStart(s), Trim(s));
  }

  /** Cutting the tail off a text that starts with no whitespace leaves
      whitespace at neither end. */
  lemma TrimEnds(t: string, r: string)
    requires r == TrimEnd(t) && (t == [] || !IsWhitespace(t[0]))
    ensures r != [] ==> !IsWhitespace(r[0]) && !IsWhitespace(r[|r| - 1])
  {
    if r != [] {
      assert r[0] == t[0];
    }
  }

  lemma TrimBlank(s: string, t: string, r: string)
    requires t == TrimStart(s) && r == TrimEnd(t)
    ensures r == [] <==> forall i :: 0 <= i < |s| ==> IsWhitespace(s[i])
  {
    if r == [] {
      assert t == [];
    } else {
      var k := |s| - |t|;
      assert s[k] == t[0];
      assert !IsWhitespace(s[k]);
    }
  }

  /** Trimming an already trimmed text changes nothing. */
  lemma TrimIdempotent(s: string)
    ensures Trim(Trim(s)) == Trim(s)
  {
    var r := Trim(s);
    TrimmedEnds(s);
    if r != [] {
      assert TrimStart(r) == r;
      assert TrimEnd(r) == r;
    }
  }

  /** The name given to an empty slot. */
  const AbsentName: string := "Assente"

  /** One slot's roster entry: the trimmed text, or an absent entry when
      nothing but whitespace was typed. */
  function EntryOf(p: string): (r: PlayerInfo)
    ensures r.isAbsent <==> Trim(p) == []
    ensures r.isAbsent ==> r.name == AbsentName
    ensures r.name != []
  {
    var t := Trim(p);
    PlayerInfo(if t == "" then AbsentName else t, t == "")
  }

  /** `handleNext`'s roster: one entry per slot, in slot order. */
  function FinalRoster(players: seq<string>): (r: seq<PlayerInfo>)
    ensures |r| == |players| && forall i :: 0 <= i < |players| ==> r[i] == EntryOf(players[i])
  {
    seq(|players|, i requires 0 <= i < |players| => EntryOf(players[i]))
  }

  /** The slots the roster screen opens with: an absent entry shows as an
      empty slot, any other entry as its name. */
  function InputSlots(roster: seq<PlayerInfo>): (slots: seq<string>)
    ensures |slots| == |roster|
    ensures forall i :: 0 <= i < |roster| ==> slots[i] == if roster[i].isAbsent then "" else roster[i].name
  {
    seq(|roster|, i requires 0 <= i < |roster| => if roster[i].isAbsent then "" else roster[i].name)
  }

  /** A slot's entry is absent exactly when its text is blank; an absent
      entry is named "Assente", any other is named by the trimmed text,
      which is not empty (and, by `TrimmedEnds`, has no whitespace at
      either end). */
  lemma EntryOfShape(p: string)
    ensures EntryOf(p).isAbsent <==> forall i :: 0 <= i < |p| ==> IsWhitespace(p[i])
    ensures EntryOf(p).isAbsent ==> EntryOf(p).name == AbsentName
    ensures !EntryOf(p).isAbsent ==> EntryOf(p).name == Trim(p) != ""
  {
    var t := Trim(p);
    if t == [] {
      assert EntryOf(p) == PlayerInfo(AbsentName, true);
    } else {
      assert EntryOf(p) == PlayerInfo(t, false);
    }
  }

  /** Reopening the roster screen on a roster it produced and pressing
      "next" again gives back the same roster. */
  lemma RoundTrip(players: seq<string>)
    ensures FinalRoster(InputSlots(FinalRoster(players))) == FinalRoster(players)
  {
    var roster := FinalRoster(players);
    var again := FinalRoster(InputSlots(roster));
    forall i | 0 <= i < |players| ensures again[i] == roster[i] {
      TrimIdempotent(players[i]);
      assert Trim("") == "";
    }
  }

  /** Going the other way, the slots come back trimmed; blank ones empty. */
  lemma SlotsNormalised(players: seq<string>)
    ensures forall i :: 0 <= i < |players| ==> InputSlots(FinalRoster(players))[i] == Trim(players[i])
  {
  }

  /** The roster screen's state: the match name field and the twelve slots. */
  class RosterForm {
    var matchName: string
    var players: seq<string>

    constructor (initialRoster: seq<PlayerInfo>, initialMatchName: string)
      ensures matchName == initialMatchName && players == InputSlots(initialRoster)
    {
      matchName := initialMatchName;
      players := InputSlots(initialRoster);
    }

    /** Typing in the match name field. */
    method HandleMatchNameChange(value: string)
      modifies this`matchName
      ensures matchName == value
    {
      matchName := value;
    }

    /** Typing in slot `index`: a copy of the slots with that one replaced. */
    method HandleInputChange(index: nat, value: string)
      requires index < |players|
      modifies this`players
      ensures |players| == |old(players)|
      ensures players[index] == value
      ensures forall i :: 0 <= i < |players| && i != index ==> players[i] == old(players)[i]
    {
      var current := players;
      var updated := new string[|current|](i requires 0 <= i < |current| => current[i]);
      updated[index] := value;
      players := updated[..];
    }

    /** The "next" button: the match name and the roster built from the
        slots, handed to the app. */
    method HandleNext() returns (name: string, finalRoster: seq<PlayerInfo>)
      ensures name == matchName
      ensures finalRoster == FinalRoster(players)
    {
      name := matchName;
      finalRoster := FinalRoster(players);
    }
  }
}
