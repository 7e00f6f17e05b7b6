/** The regular-expression matcher of user/grep.c. A C string is the sequence of its characters before the NUL. */
module Grep {

  // ----- what a pattern means -----

  /** A pattern without its ^ is a list of these: one character, any number of one character, the end of the text. The
      character '.' stands for any. */
  datatype Item = One(c: char) | Star(c: char) | End

  function Items(re: string): seq<Item> {
    if re == "" then []
    else if |re| > 1 && re[1] == '*' then [Star(re[0])] + Items(re[2..])
    else if re == "$" then [End]
    else [One(re[0])] + Items(re[1..])
  }

  predicate Same(c: char, x: char) { c == '.' || c == x }

  /** The item matches the characters of text from a up to b. */
  ghost predicate ItemFits(item: Item, text: string, a: nat, b: nat) {
    a <= b <= |text| && match item
    case One(c) => b == a + 1 && Same(c, text[a])
    case Star(c) => forall k :: a <= k < b ==> Same(c, text[k])
    case End => a == b == |text|
  }

  /** The items match, one after the other, the pieces of text between the cuts. */
  ghost predicate Fits(items: seq<Item>, text: string, cuts: seq<nat>) {
    && |cuts| == |items| + 1 && cuts[0] <= |text|
    && forall i, j :: 0 <= i < |items| && j == i + 1 ==> ItemFits(items[i], text, cuts[i], cuts[j])
  }

  ghost predicate FitsFrom(items: seq<Item>, text: string, cuts: seq<nat>, n: nat) {
    Fits(items, text, cuts) && cuts[0] == n
  }

  /** Some beginning of text matches. */
  ghost predicate Here(items: seq<Item>, text: string) {
    exists cuts: seq<nat> :: FitsFrom(items, text, cuts, 0)
  }

  /** The pattern admits a match: anywhere, or at the start if it begins with ^. */
  ghost predicate Admits(re: string, text: string) {
    if re != "" && re[0] == '^' then exists cuts: seq<nat> :: FitsFrom(Items(re[1..]), text, cuts, 0)
    else exists cuts: seq<nat> :: Fits(Items(re), text, cuts)
  }

  // ----- cutting off the first piece -----

  /** All cuts moved by n. */
  function Moved(cuts: seq<nat>, n: int): (r: seq<nat>)
    requires forall k :: 0 <= k < |cuts| ==> cuts[k] + n >= 0
    ensures |r| == |cuts| && forall k :: 0 <= k < |r| ==> r[k] == cuts[k] + n
  {
    if cuts == [] then [] else [cuts[0] + n] + Moved(cuts[1..], n)
  }

  lemma FitsAscending(items: seq<Item>, text: string, cuts: seq<nat>, i: nat)
    requires Fits(items, text, cuts) && i < |cuts|
    ensures cuts[0] <= cuts[i] <= |text|
  {
    if i > 0 { FitsAscending(items, text, cuts, i - 1); }
  }

  lemma ItemMoved(item: Item, text: string, n: nat, a: nat, b: nat)
    requires n <= |text|
    ensures ItemFits(item, text[n..], a, b) <==> ItemFits(item, text, a + n, b + n)
  {
    if item.Star? && b <= |text| - n {
      assert forall k :: a + n <= k < b + n ==> text[k] == text[n..][k - n];
      assert forall k :: a <= k < b ==> text[n..][k] == text[k + n];
    }
  }

  /** A match within text from n on is a match in text. */
  lemma FitsMoved(items: seq<Item>, text: string, n: nat, cuts: seq<nat>)
    requires n <= |text|
    ensures Fits(items, text[n..], cuts) <==> Fits(items, text, Moved(cuts, n))
  {
    hide ItemFits;
    var there := Moved(cuts, n);
    if |cuts| == |items| + 1 {
      forall i, j | 0 <= i < |items| && j == i + 1
        ensures ItemFits(items[i], text[n..], cuts[i], cuts[j]) <==> ItemFits(items[i], text, there[i], there[j])
      {
        ItemMoved(items[i], text, n, cuts[i], cuts[j]);
      }
    }
  }

  lemma HereAt(items: seq<Item>, text: string, n: nat)
    requires n <= |text|
    ensures Here(items, text[n..]) <==> exists cuts: seq<nat> :: FitsFrom(items, text, cuts, n)
  {
    if Here(items, text[n..]) {
      var cuts: seq<nat> :| FitsFrom(items, text[n..], cuts, 0);
      FitsMoved(items, text, n, cuts);
      assert FitsFrom(items, text, Moved(cuts, n), n);
    }
    if cuts: seq<nat> :| FitsFrom(items, text, cuts, n) {
      MovedBack(items, text, n, cuts);
    }
  }

  lemma MovedBack(items: seq<Item>, text: string, n: nat, cuts: seq<nat>)
    requires n <= |text| && FitsFrom(items, text, cuts, n)
    ensures Here(items, text[n..])
  {
    forall i | 0 <= i < |cuts| ensures cuts[i] >= n { FitsAscending(items, text, cuts, i); }
    var back := Moved(cuts, 0 - n);
    assert Moved(back, n) == cuts;
    FitsMoved(items, text, n, back);
    assert FitsFrom(items, text[n..], back, 0);
  }

  lemma FitsCons(item: Item, rest: seq<Item>, text: string, a: nat, cuts: seq<nat>)
    requires |cuts| == |rest| + 1
    ensures Fits([item] + rest, text, [a] + cuts) <==> ItemFits(item, text, a, cuts[0]) && Fits(rest, text, cuts)
  {
    var items, all := [item] + rest, [a] + cuts;
    assert items[0] == item && all[0] == a && all[1] == cuts[0];
    forall i, j | 0 <= i < |rest| && j == i + 1
      ensures ItemFits(rest[i], text, cuts[i], cuts[j]) <==> ItemFits(items[j], text, all[j], all[j + 1])
    {
      assert rest[i] == items[j] && cuts[i] == all[j] && cuts[j] == all[j + 1];
    }
    if Fits(items, text, all) {
      assert ItemFits(items[0], text, all[0], all[1]);
      forall i, j | 0 <= i < |rest| && j == i + 1 ensures ItemFits(rest[i], text, cuts[i], cuts[j]) {
        assert ItemFits(items[j], text, all[j], all[j + 1]);
      }
    }
    if ItemFits(item, text, a, cuts[0]) && Fits(rest, text, cuts) {
      forall i, j | 0 <= i < |items| && j == i + 1 ensures ItemFits(items[i], text, all[i], all[j]) {
        if i > 0 { assert ItemFits(rest[i - 1], text, cuts[i - 1], cuts[j - 1]); }
      }
    }
  }

  /** The first item takes a piece, and the others match what follows. */
  lemma HereSplits(item: Item, rest: seq<Item>, text: string)
    ensures Here([item] + rest, text) <==>
            exists n: nat :: n <= |text| && ItemFits(item, text, 0, n) && Here(rest, text[n..])
  {
    hide Fits;
    var items := [item] + rest;
    if Here(items, text) {
      var cuts: seq<nat> :| FitsFrom(items, text, cuts, 0);
      FitsLength(items, text, cuts);
      var tail := cuts[1..];
      assert cuts == [0] + tail;
      FitsCons(item, rest, text, 0, tail);
      assert FitsFrom(rest, text, tail, tail[0]);
      HereAt(rest, text, tail[0]);
    }
    if n: nat :| n <= |text| && ItemFits(item, text, 0, n) && Here(rest, text[n..]) {
      HereAt(rest, text, n);
      var tail: seq<nat> :| FitsFrom(rest, text, tail, n);
      FitsLength(rest, text, tail);
      FitsCons(item, rest, text, 0, tail);
      assert FitsFrom(items, text, [0] + tail, 0);
    }
  }

  lemma FitsLength(items: seq<Item>, text: string, cuts: seq<nat>)
    requires Fits(items, text, cuts)
    ensures |cuts| == |items| + 1 && cuts[0] <= |text|
  {
  }

  lemma HereNothing(text: string)
    ensures Here([], text)
  {
    assert FitsFrom([], text, [0], 0);
  }

  lemma HereEnd(text: string)
    ensures Here([End], text) <==> text == ""
  {
    HereNothing("");
    HereSplits(End, [], text);
    assert [End] + [] == [End];
    if text == "" { assert ItemFits(End, text, 0, 0) && text[0..] == ""; }
  }

  lemma HereOne(c: char, rest: seq<Item>, text: string)
    ensures Here([One(c)] + rest, text) <==> text != "" && Same(c, text[0]) && Here(rest, text[1..])
  {
    HereSplits(One(c), rest, text);
    if text != "" && Same(c, text[0]) && Here(rest, text[1..]) { assert ItemFits(One(c), text, 0, 1); }
  }

  /** A star matches nothing, or one character and then itself again. */
  lemma HereStar(c: char, rest: seq<Item>, text: string)
    ensures Here([Star(c)] + rest, text) <==>
              Here(rest, text) || (text != "" && Same(c, text[0]) && Here([Star(c)] + rest, text[1..]))
  {
    HereSplits(Star(c), rest, text);
    assert text[0..] == text;
    if Here(rest, text) { assert ItemFits(Star(c), text, 0, 0); }
    if text != "" {
      HereSplits(Star(c), rest, text[1..]);
      forall n: nat | n < |text| ensures text[1..][n..] == text[n + 1..] { }
      var t := text[1..];
      if n: nat :| n <= |t| && ItemFits(Star(c), t, 0, n) && Here(rest, t[n..]) && Same(c, text[0]) {
        assert forall k :: 0 <= k < n + 1 ==> text[k] == if k == 0 then text[0] else text[1..][k - 1];
        assert ItemFits(Star(c), text, 0, n + 1);
      }
      if n: nat :| 0 < n <= |text| && ItemFits(Star(c), text, 0, n) && Here(rest, text[n..]) {
        assert ItemFits(Star(c), text[1..], 0, n - 1) && text[1..][n - 1..] == text[n..];
      }
    }
  }

  // ----- the code -----

  /** A C string's character i: NUL at the end. */
  function At(s: string, i: nat): char { if i < |s| then s[i] else '\0' }

  ghost predicate CString(s: string) { forall i :: 0 <= i < |s| ==> s[i] != '\0' }

  /** matchhere. */
  method MatchHere(re: string, text: string) returns (r: bool)
    requires CString(re) && CString(text)
    ensures r <==> Here(Items(re), text)
    decreases |re|, |text|, 0
  {
    if At(re, 0) == '\0' {
      HereNothing(text);
      return true;
    }
    if At(re, 1) == '*' {
      r := MatchStar(re[0], re[2..], text);
      return;
    }
    if At(re, 0) == '$' && At(re, 1) == '\0' {
      assert re == "$";
      HereEnd(text);
      return At(text, 0) == '\0';
    }
    HereOne(re[0], Items(re[1..]), text);
    if At(text, 0) != '\0' && (At(re, 0) == '.' || At(re, 0) == At(text, 0)) {
      r := MatchHere(re[1..], text[1..]);
      return;
    }
    return false;
  }

  /** matchstar. */
  method MatchStar(c: char, re: string, text: string) returns (r: bool)
    requires CString(re) && CString(text)
    ensures r <==> Here([Star(c)] + Items(re), text)
    decreases |re|, |text|, 1
  {
    var t := text;
    while true
      invariant CString(t) && |t| <= |text|
      invariant Here([Star(c)] + Items(re), text) <==> Here([Star(c)] + Items(re), t)
      decreases |t|
    {
      HereStar(c, Items(re), t);
      var here := MatchHere(re, t);
      if here { return true; }
      if !(At(t, 0) != '\0' && (At(t, 0) == c || c == '.')) { return false; }
      t := t[1..];
    }
  }

  /** match: true exactly if the pattern admits a match. */
  method Match(re: string, text: string) returns (r: bool)
    requires CString(re) && CString(text)
    ensures r <==> Admits(re, text)
  {
    if At(re, 0) == '^' {
      r := MatchHere(re[1..], text);
      return;
    }
    ghost var i: nat := 0;
    var t := text;
    while true
      invariant i <= |text| && t == text[i..] && forall k: nat :: k < i ==> !Here(Items(re), text[k..])
      decreases |t|
    {
      HereAt(Items(re), text, i);
      var here := MatchHere(re, t);
      if here { return true; }
      if At(t, 0) == '\0' {
        NowhereElse(Items(re), text);
        return false;
      }
      t := t[1..];
      i := i + 1;
    }
  }

  lemma NowhereElse(items: seq<Item>, text: string)
    requires forall k: nat :: k <= |text| ==> !Here(items, text[k..])
    ensures !exists cuts: seq<nat> :: Fits(items, text, cuts)
  {
    forall cuts: seq<nat> ensures !Fits(items, text, cuts) {
      if Fits(items, text, cuts) {
        assert FitsFrom(items, text, cuts, cuts[0]);
        HereAt(items, text, cuts[0]);
      }
    }
  }
}
