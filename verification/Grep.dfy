/**
 * The regular expression matcher of grep.c.  A C string is a sequence without '\0'; reading
 * at its end gives '\0'.  A pointer into the text is the text with an index.
 */
module Grep {
  import opened Common

  function At(s: CString, i: nat): (c: char)
    ensures c == '\0' <==> i >= |s|
  {
    if i < |s| then s[i] else '\0'
  }

  // ---- what a pattern means ----

  datatype Item = One(c: char) | Star(c: char) | End

  /** `c*` binds before everything else, and `$` is special only at the very end. */
  function Items(re: seq<char>): seq<Item> {
    if re == [] then []
    else if |re| > 1 && re[1] == '*' then [Star(re[0])] + Items(re[2..])
    else if re == "$" then [End]
    else [One(re[0])] + Items(re[1..])
  }

  predicate Fits(c: char, x: char) { c == '.' || c == x }

  /** One item accounts for text[i..m]. */
  predicate Accepts(item: Item, text: seq<char>, i: nat, m: nat) {
    i <= m <= |text| &&
    match item
    case One(c) => m == i + 1 && Fits(c, text[i])
    case Star(c) => forall k :: i <= k < m ==> Fits(c, text[k])
    case End => m == i == |text|
  }

  /** The items account for consecutive stretches of the text that meet at the cuts. */
  predicate Explains(items: seq<Item>, text: seq<char>, cuts: seq<nat>) {
    |cuts| == |items| + 1 && forall k :: 0 <= k < |items| ==> Accepts(items[k], text, cuts[k], cuts[k + 1])
  }

  /** The pattern matches at position i. */
  ghost predicate MatchesAt(items: seq<Item>, text: seq<char>, i: nat) {
    i <= |text| && exists cuts :: Explains(items, text, cuts) && cuts[0] == i
  }

  /** A pattern with a leading ^ matches at the start only, any other one anywhere. */
  ghost predicate Matches(re: seq<char>, text: seq<char>) {
    if re != [] && re[0] == '^' then MatchesAt(Items(re[1..]), text, 0)
    else exists i :: 0 <= i <= |text| && MatchesAt(Items(re), text, i)
  }

  lemma NoItems(text: seq<char>, i: nat)
    ensures MatchesAt([], text, i) <==> i <= |text|
  {
    assert i <= |text| ==> Explains([], text, [i]);
  }

  /** The first item takes a stretch and the others match after it. */
  lemma FirstItem(item: Item, rest: seq<Item>, text: seq<char>, i: nat)
    ensures MatchesAt([item] + rest, text, i) <==> exists m: nat :: Accepts(item, text, i, m) && MatchesAt(rest, text, m)
  {
    var items := [item] + rest;
    if MatchesAt(items, text, i) {
      var cuts :| Explains(items, text, cuts) && cuts[0] == i;
      assert Accepts(items[0], text, cuts[0], cuts[1]);
      var after := cuts[1..];
      forall k | 0 <= k < |rest| ensures Accepts(rest[k], text, after[k], after[k + 1]) {
        assert Accepts(items[k + 1], text, cuts[k + 1], cuts[k + 1 + 1]);
      }
      assert Explains(rest, text, after);
    }
    if m: nat :| Accepts(item, text, i, m) && MatchesAt(rest, text, m) {
      var cuts :| Explains(rest, text, cuts) && cuts[0] == m;
      assert Explains(items, text, [i] + cuts);
    }
  }

  /** Star: some stretch of fitting characters starts at i and the rest matches after it. */
  ghost predicate StarAt(c: char, re: seq<char>, text: seq<char>, i: nat) {
    exists m: nat :: Accepts(Star(c), text, i, m) && MatchesAt(Items(re), text, m)
  }

  // ---- the code ----

  /** matchhere (grep.c:85-96). */
  method MatchHere(re: CString, text: CString, i: nat) returns (r: bool)
    requires i <= |text|
    ensures r <==> MatchesAt(Items(re), text, i)
    decreases |re|, 0
  {
    if At(re, 0) == '\0' {
      NoItems(text, i);
      return true;
    }
    if At(re, 1) == '*' {
      r := MatchStar(re[0], re[2..], text, i);
      FirstItem(Star(re[0]), Items(re[2..]), text, i);
      return;
    }
    if re[0] == '$' && At(re, 1) == '\0' {
      EndOnly(re, text, i);
      return At(text, i) == '\0';
    }
    FirstItem(One(re[0]), Items(re[1..]), text, i);
    if At(text, i) != '\0' && (re[0] == '.' || re[0] == text[i]) {
      r := MatchHere(re[1..], text, i + 1);
      return;
    }
    return false;
  }

  lemma EndOnly(re: seq<char>, text: seq<char>, i: nat)
    requires re == "$" && i <= |text|
    ensures MatchesAt(Items(re), text, i) <==> i == |text|
  {
    assert Items(re) == [End] + [];
    FirstItem(End, [], text, i);
    NoItems(text, i);
  }

  /** matchstar (grep.c:99-106). */
  method MatchStar(c: char, re: CString, text: CString, i: nat) returns (r: bool)
    requires i <= |text|
    ensures r <==> StarAt(c, re, text, i)
    decreases |re|, 1
  {
    var j := i;
    while true
      invariant i <= j <= |text| && Accepts(Star(c), text, i, j)
      invariant forall m :: i <= m < j ==> !MatchesAt(Items(re), text, m)
      decreases |text| - j
    {
      r := MatchHere(re, text, j);
      if r { return true; }
      if At(text, j) == '\0' || !(At(text, j) == c || c == '.') {
        assert forall m: nat :: m > j ==> !Accepts(Star(c), text, i, m);
        return false;
      }
      j := j + 1;
    }
  }

  /** match (grep.c:72-82). */
  method Match(re: CString, text: CString) returns (r: bool)
    ensures r <==> Matches(re, text)
  {
    if At(re, 0) == '^' {
      r := MatchHere(re[1..], text, 0);
      return;
    }
    var i := 0;
    while true
      invariant 0 <= i <= |text|
      invariant forall m :: 0 <= m < i ==> !MatchesAt(Items(re), text, m)
      decreases |text| - i
    {
      r := MatchHere(re, text, i);
      if r { return true; }
      if At(text, i) == '\0' { return false; }
      i := i + 1;
    }
  }
}
