/** The words the user names edges and relabellings by. */
module Names {
  import opened Prelude
  import opened Geometry
  import opened Commands

  /** Unicode's white space, which trimming removes. */
  predicate IsSpace(c: char) {
    || '\U{9}' <= c <= '\U{D}' || c == ' ' || c == '\U{85}' || c == '\U{A0}' || c == '\U{1680}'
    || '\U{2000}' <= c <= '\U{200A}' || c == '\U{2028}' || c == '\U{2029}' || c == '\U{202F}' || c == '\U{205F}'
    || c == '\U{3000}'
  }

  lemma SpacesAndPrintables(c: char)
    ensures c in " \t\n\r" ==> IsSpace(c)
    ensures '!' <= c <= '~' ==> !IsSpace(c)
  {
  }

  predicate AllSpace(s: string) {
    forall c | c in s :: IsSpace(c)
  }

  function TrimmedStart(s: string): string {
    if s != "" && IsSpace(s[0]) then TrimmedStart(s[1..]) else s
  }

  function TrimmedEnd(s: string): string {
    if s != "" && IsSpace(Last(s)) then TrimmedEnd(Front(s)) else s
  }

  function Trimmed(s: string): string {
    TrimmedEnd(TrimmedStart(s))
  }

  /** Lower case for the ASCII letters; every other character stays. */
  function Lowered(s: string): string {
    seq(|s|, i requires 0 <= i < |s| => if 'A' <= s[i] <= 'Z' then s[i] - 'A' + 'a' else s[i])
  }

  function ParseEdge(name: string): Option<Edge> {
    var word := Lowered(Trimmed(name));
    if word == "left" then Some(Left)
    else if word == "right" then Some(Right)
    else if word == "top" || word == "up" then Some(Top)
    else if word == "bottom" || word == "down" then Some(Bottom)
    else None
  }

  function EdgeName(e: Edge): string {
    match e
    case Left => "left"
    case Right => "right"
    case Top => "top"
    case Bottom => "bottom"
  }

  function ParseSwap(name: string): Option<ModifierSwap> {
    var word := Lowered(Trimmed(name));
    if word == "none" || word == "off" then Some(Unchanged)
    else if word == "meta-control" || word == "meta_control" || word == "cmd-ctrl" || word == "swap" || word == "on"
    then Some(MetaAndControl)
    else None
  }

  function SwapName(swap: ModifierSwap): string {
    match swap
    case Unchanged => "none"
    case MetaAndControl => "meta-control"
  }

  lemma {:induction false} TrimsStart(before: string, word: string)
    requires AllSpace(before) && (word != "" ==> !IsSpace(word[0]))
    ensures TrimmedStart(before + word) == word
  {
    if before == "" {
      assert before + word == word;
    } else {
      assert (before + word)[1..] == before[1..] + word;
      TrimsStart(before[1..], word);
    }
  }

  lemma {:induction false} TrimsEnd(word: string, after: string)
    requires AllSpace(after) && (word != "" ==> !IsSpace(Last(word)))
    ensures TrimmedEnd(word + after) == word
  {
    if after == "" {
      assert word + after == word;
    } else {
      assert Front(word + after) == word + Front(after);
      assert Last(after) in after;
      TrimsEnd(word, Front(after));
    }
  }

  /** A word set between spaces is what trimming leaves. */
  lemma TrimsAround(before: string, word: string, after: string)
    requires AllSpace(before) && AllSpace(after)
    requires word != "" && !IsSpace(word[0]) && !IsSpace(Last(word))
    ensures Trimmed(before + word + after) == word
  {
    assert before + word + after == before + (word + after);
    TrimsStart(before, word + after);
    TrimsEnd(word, after);
  }

  /** The same letters, upper case or lower. */
  predicate Spells(word: string, name: string) {
    && |word| == |name|
    && forall i | 0 <= i < |word| ::
         word[i] == name[i] || ('A' <= word[i] <= 'Z' && word[i] as int + 32 == name[i] as int)
  }

  lemma LoweredSpells(word: string, name: string)
    requires forall i | 0 <= i < |name| :: !('A' <= name[i] <= 'Z')
    ensures Lowered(word) == name <==> Spells(word, name)
  {
    if Spells(word, name) {
      assert forall i | 0 <= i < |word| :: Lowered(word)[i] == name[i];
    }
    if Lowered(word) == name {
      assert forall i | 0 <= i < |word| :: Lowered(word)[i] == name[i];
    }
  }

  /** What the program calls an edge or a relabelling it also understands, in
      whatever letter case and with whatever space around it. */
  lemma NamesReadBack(before: string, word: string, after: string, e: Edge, swap: ModifierSwap)
    requires AllSpace(before) && AllSpace(after)
    ensures Spells(word, EdgeName(e)) ==> ParseEdge(before + word + after) == Some(e)
    ensures Spells(word, SwapName(swap)) ==> ParseSwap(before + word + after) == Some(swap)
  {
    hide Spells, Lowered, Trimmed, IsSpace;
    if Spells(word, EdgeName(e)) {
      LoweredSpells(word, EdgeName(e));
      LettersAreNoSpace(word, EdgeName(e));
      TrimsAround(before, word, after);
    }
    if Spells(word, SwapName(swap)) {
      LoweredSpells(word, SwapName(swap));
      LettersAreNoSpace(word, SwapName(swap));
      TrimsAround(before, word, after);
    }
  }

  lemma LettersAreNoSpace(word: string, name: string)
    requires Spells(word, name) && name != "" && 'a' <= name[0] <= 'z' && 'a' <= Last(name) <= 'z'
    ensures word != "" && !IsSpace(word[0]) && !IsSpace(Last(word))
  {
  }

  predicate HasNoSpaceAround(word: string) {
    word != "" ==> !IsSpace(word[0]) && !IsSpace(Last(word))
  }

  /** Any text is a word with space around it, if only the empty word. */
  lemma AnyTextIsAWord(s: string) returns (before: string, after: string)
    ensures s == before + Trimmed(s) + after && AllSpace(before) && AllSpace(after) && HasNoSpaceAround(Trimmed(s))
  {
    before := SplitsStart(s);
    after := SplitsEnd(TrimmedStart(s));
    var word := Trimmed(s);
    assert word != "" ==> word[0] == TrimmedStart(s)[0];
  }

  lemma {:induction false} SplitsStart(s: string) returns (before: string)
    ensures s == before + TrimmedStart(s) && AllSpace(before)
    ensures TrimmedStart(s) != "" ==> !IsSpace(TrimmedStart(s)[0])
  {
    if s != "" && IsSpace(s[0]) {
      var rest := SplitsStart(s[1..]);
      before := [s[0]] + rest;
      assert s == [s[0]] + s[1..];
    } else {
      before := "";
    }
  }

  lemma {:induction false} SplitsEnd(s: string) returns (after: string)
    ensures s == TrimmedEnd(s) + after && AllSpace(after)
    ensures TrimmedEnd(s) != "" ==> !IsSpace(Last(TrimmedEnd(s)))
  {
    if s != "" && IsSpace(Last(s)) {
      var rest := SplitsEnd(Front(s));
      after := rest + [Last(s)];
      assert s == Front(s) + [Last(s)];
    } else {
      after := "";
    }
  }

  /** What each text names, letter case and space around it aside; any other names
      nothing. */
  lemma NamesExactly(before: string, word: string, after: string)
    requires AllSpace(before) && AllSpace(after) && HasNoSpaceAround(word)
    ensures var e := ParseEdge(before + word + after);
            && (e == Some(Left) <==> Spells(word, "left")) && (e == Some(Right) <==> Spells(word, "right"))
            && (e == Some(Top) <==> Spells(word, "top") || Spells(word, "up"))
            && (e == Some(Bottom) <==> Spells(word, "bottom") || Spells(word, "down"))
    ensures var s := ParseSwap(before + word + after);
            && (s == Some(Unchanged) <==> Spells(word, "none") || Spells(word, "off"))
            && (s == Some(MetaAndControl) <==>
                  || Spells(word, "meta-control") || Spells(word, "meta_control") || Spells(word, "cmd-ctrl")
                  || Spells(word, "swap") || Spells(word, "on"))
  {
    if word == "" {
      assert before + word + after == before + after;
      AllSpaceIsNoWord(before + after);
    } else {
      TrimsAround(before, word, after);
    }
    hide Spells, Trimmed;
    EdgesAreSpelt(word);
    SwapsAreSpelt(word);
  }

  lemma EdgesAreSpelt(word: string)
    ensures Lowered(word) == "left" <==> Spells(word, "left")
    ensures Lowered(word) == "right" <==> Spells(word, "right")
    ensures Lowered(word) == "top" <==> Spells(word, "top")
    ensures Lowered(word) == "up" <==> Spells(word, "up")
    ensures Lowered(word) == "bottom" <==> Spells(word, "bottom")
    ensures Lowered(word) == "down" <==> Spells(word, "down")
  {
    hide Spells, Lowered;
    LoweredSpells(word, "left");
    LoweredSpells(word, "right");
    LoweredSpells(word, "top");
    LoweredSpells(word, "up");
    LoweredSpells(word, "bottom");
    LoweredSpells(word, "down");
  }

  lemma SwapsAreSpelt(word: string)
    ensures Lowered(word) == "none" <==> Spells(word, "none")
    ensures Lowered(word) == "off" <==> Spells(word, "off")
    ensures Lowered(word) == "meta-control" <==> Spells(word, "meta-control")
    ensures Lowered(word) == "meta_control" <==> Spells(word, "meta_control")
    ensures Lowered(word) == "cmd-ctrl" <==> Spells(word, "cmd-ctrl")
    ensures Lowered(word) == "swap" <==> Spells(word, "swap")
    ensures Lowered(word) == "on" <==> Spells(word, "on")
  {
    hide Spells, Lowered;
    LoweredSpells(word, "none");
    LoweredSpells(word, "off");
    LoweredSpells(word, "meta-control");
    LoweredSpells(word, "meta_control");
    LoweredSpells(word, "cmd-ctrl");
    LoweredSpells(word, "swap");
    LoweredSpells(word, "on");
  }

  lemma {:induction false} AllSpaceIsNoWord(s: string)
    requires AllSpace(s)
    ensures Trimmed(s) == ""
  {
    if s == "" {
    } else {
      AllSpaceIsNoWord(s[1..]);
    }
  }
}
