/** grep.c: the backtracking matcher against what its patterns mean. */
module Regex {
  datatype Atom = Any | Lit(c: char)
  datatype Item = One(a: Atom) | Star(a: Atom) | End

  predicate Fits(a: Atom, c: char) {
    a.Any? || a.c == c
  }

  function AtomOf(c: char): Atom {
    if c == '.' then Any else Lit(c)
  }

  /** The pattern from its i-th character: a character before '*' is starred whatever it
      is, a final '$' is the end of the text, everything else stands for itself. */
  function Items(re: string, i: nat): (r: seq<Item>)
    requires i <= |re|
    decreases |re| - i
  {
    if i == |re| then []
    else if i + 1 < |re| && re[i + 1] == '*' then [Star(AtomOf(re[i]))] + Items(re, i + 2)
    else if re[i] == '$' && i + 1 == |re| then [End]
    else [One(AtomOf(re[i]))] + Items(re, i + 1)
  }

  // ------------------------------------------------------------------
  // Meaning

  /** One item accounts for the piece text[from..to]. */
  predicate Piece(it: Item, text: string, from: nat, to: nat) {
    && from <= to <= |text|
    && match it
       case One(a) => to == from + 1 && Fits(a, text[from])
       case Star(a) => forall k :: from <= k < to ==> Fits(a, text[k])
       case End => from == to == |text|
  }

  /** The cuts divide a stretch of the text into one piece per item. */
  predicate Divides(items: seq<Item>, text: string, cuts: seq<nat>) {
    |cuts| == |items| + 1 && forall k :: 0 <= k < |items| ==> Piece(items[k], text, cuts[k], cuts[k + 1])
  }

  ghost predicate MatchesFrom(items: seq<Item>, text: string, from: nat) {
    exists cuts :: Divides(items, text, cuts) && cuts[0] == from
  }

  /** A leading '^' ties the match to the start; otherwise it may begin anywhere. */
  ghost predicate Matches(re: string, text: string) {
    if re != "" && re[0] == '^' then MatchesFrom(Items(re, 1), text, 0)
    else exists from :: 0 <= from <= |text| && MatchesFrom(Items(re, 0), text, from)
  }

  // ------------------------------------------------------------------
  // One item at a time

  lemma EmptyMatches(text: string, from: nat)
    ensures MatchesFrom([], text, from)
  {
    assert Divides([], text, [from]);
  }

  lemma ItemThenRest(it: Item, rest: seq<Item>, text: string, from: nat, to: nat)
    requires Piece(it, text, from, to) && MatchesFrom(rest, text, to)
    ensures MatchesFrom([it] + rest, text, from)
  {
    var cuts :| Divides(rest, text, cuts) && cuts[0] == to;
    assert Divides([it] + rest, text, [from] + cuts);
  }

  lemma RestMatches(it: Item, rest: seq<Item>, text: string, from: nat)
    requires MatchesFrom([it] + rest, text, from)
    ensures exists to :: from <= to <= |text| && Piece(it, text, from, to) && MatchesFrom(rest, text, to)
  {
    var cuts :| Divides([it] + rest, text, cuts) && cuts[0] == from;
    assert Piece(([it] + rest)[0], text, cuts[0], cuts[1]);
    assert Divides(rest, text, cuts[1..]);
    assert MatchesFrom(rest, text, cuts[1]);
  }

  lemma OneIff(a: Atom, rest: seq<Item>, text: string, from: nat)
    ensures MatchesFrom([One(a)] + rest, text, from) <==>
            from < |text| && Fits(a, text[from]) && MatchesFrom(rest, text, from + 1)
  {
    if MatchesFrom([One(a)] + rest, text, from) {
      RestMatches(One(a), rest, text, from);
    }
    if from < |text| && Fits(a, text[from]) && MatchesFrom(rest, text, from + 1) {
      ItemThenRest(One(a), rest, text, from, from + 1);
    }
  }

  lemma EndIff(text: string, from: nat)
    ensures MatchesFrom([End], text, from) <==> from == |text|
  {
    assert [End] + [] == [End];
    if MatchesFrom([End], text, from) {
      RestMatches(End, [], text, from);
    }
    if from == |text| {
      EmptyMatches(text, from);
      ItemThenRest(End, [], text, from, from);
    }
  }

  // ------------------------------------------------------------------
  // The matcher

  /** matchhere is sound and complete. */
  method MatchHere(re: string, i: nat, text: string, j: nat) returns (r: bool)
    requires i <= |re| && j <= |text|
    ensures r <==> MatchesFrom(Items(re, i), text, j)
    decreases |re| - i, 0
  {
    if i == |re| {
      EmptyMatches(text, j);
      return true;
    }
    if i + 1 < |re| && re[i + 1] == '*' {
      r := MatchStar(re[i], re, i + 2, text, j);
      return;
    }
    if re[i] == '$' && i + 1 == |re| {
      EndIff(text, j);
      return j == |text|;
    }
    OneIff(AtomOf(re[i]), Items(re, i + 1), text, j);
    if j < |text| && (re[i] == '.' || re[i] == text[j]) {
      r := MatchHere(re, i + 1, text, j + 1);
      return;
    }
    return false;
  }

  /** matchstar: c* and then the rest of the pattern. */
  method MatchStar(c: char, re: string, i: nat, text: string, j: nat) returns (r: bool)
    requires i <= |re| && j <= |text|
    ensures r <==> MatchesFrom([Star(AtomOf(c))] + Items(re, i), text, j)
    decreases |re| - i, 1
  {
    var t := j;
    while true
      invariant j <= t <= |text| && Piece(Star(AtomOf(c)), text, j, t)
      invariant forall k :: j <= k < t ==> !MatchesFrom(Items(re, i), text, k)
      decreases |text| - t
    {
      r := MatchHere(re, i, text, t);
      if r {
        ItemThenRest(Star(AtomOf(c)), Items(re, i), text, j, t);
        return;
      }
      if !(t < |text| && (text[t] == c || c == '.')) {
        if MatchesFrom([Star(AtomOf(c))] + Items(re, i), text, j) {
          RestMatches(Star(AtomOf(c)), Items(re, i), text, j);
        }
        return false;
      }
      t := t + 1;
    }
  }

  /** match. */
  method Match(re: string, text: string) returns (r: bool)
    ensures r <==> Matches(re, text)
  {
    if re != "" && re[0] == '^' {
      r := MatchHere(re, 1, text, 0);
      return;
    }
    var t := 0;
    while true
      invariant t <= |text| && forall k :: 0 <= k < t ==> !MatchesFrom(Items(re, 0), text, k)
      decreases |text| - t
    {
      r := MatchHere(re, 0, text, t);
      if r {
        return;
      }
      if t == |text| {
        return false;
      }
      t := t + 1;
    }
  }
}
