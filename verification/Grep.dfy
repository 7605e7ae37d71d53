/** The regular-expression matcher of grep, against what patterns mean. */
module Grep {
  /** A pattern is a row of these; Star('.') repeats any character, End is a closing dollar sign. */
  datatype Item = Lit(c: char) | Any | Star(c: char) | End

  /** The text of a pattern, without a leading ^. A star makes a repetition of whatever stands before it. */
  function Items(re: string): seq<Item> {
    if re == "" then []
    else if |re| > 1 && re[1] == '*' then [Star(re[0])] + Items(re[2..])
    else if re == "$" then [End]
    else [if re[0] == '.' then Any else Lit(re[0])] + Items(re[1..])
  }

  /** What an item makes of the stretch of text from a to b. */
  ghost predicate Fits(item: Item, text: string, a: nat, b: nat) {
    && a <= b <= |text|
    && match item
       case Lit(c) => b == a + 1 && text[a] == c
       case Any => b == a + 1
       case Star(c) => forall k :: a <= k < b ==> c == '.' || text[k] == c
       case End => a == b == |text|
  }

  /** The text can be cut into one stretch after the other, one for each item. */
  ghost predicate Cut(items: seq<Item>, text: string, cuts: seq<nat>) {
    && |cuts| == |items| + 1 && cuts[0] <= |text|
    && forall i :: 0 <= i < |items| ==> Fits(items[i], text, cuts[i], cuts[i + 1])
  }

  /** Some stretch of the text from position j on is in the language of the pattern. */
  ghost predicate Begins(items: seq<Item>, text: string, j: nat) {
    exists cuts :: Cut(items, text, cuts) && cuts[0] == j
  }

  /** What grep is for: the pattern occurs in the text, at its start after a ^. */
  ghost predicate Occurs(re: string, text: string) {
    if |re| > 0 && re[0] == '^' then Begins(Items(re[1..]), text, 0)
    else exists j :: 0 <= j <= |text| && Begins(Items(re), text, j)
  }

  lemma BeginsEmpty(text: string, j: nat)
    ensures Begins([], text, j) <==> j <= |text|
  {
    if j <= |text| {
      assert Cut([], text, [j]);
    }
  }

  lemma BeginsCons(item: Item, rest: seq<Item>, text: string, j: nat)
    ensures Begins([item] + rest, text, j) <==> exists m :: Fits(item, text, j, m) && Begins(rest, text, m)
  {
    if Begins([item] + rest, text, j) {
      var cuts :| Cut([item] + rest, text, cuts) && cuts[0] == j;
      assert ([item] + rest)[0] == item;
      assert forall i :: 0 <= i < |rest| ==> rest[i] == ([item] + rest)[i + 1];
      assert Fits(item, text, j, cuts[1]);
      assert Cut(rest, text, cuts[1..]);
    }
    if m :| Fits(item, text, j, m) && Begins(rest, text, m) {
      var cuts :| Cut(rest, text, cuts) && cuts[0] == m;
      assert Cut([item] + rest, text, [j] + cuts);
    }
  }

  method Match(re: string, text: string) returns (found: bool)
    ensures found <==> Occurs(re, text)
  {
    if |re| > 0 && re[0] == '^' {
      found := MatchHere(re[1..], text, 0);
      return;
    }
    var j := 0;
    while true
      invariant 0 <= j <= |text|
      invariant forall k :: 0 <= k < j ==> !Begins(Items(re), text, k)
      decreases |text| - j
    {
      found := MatchHere(re, text, j);
      if found || j == |text| {
        return;
      }
      j := j + 1;
    }
  }

  /** Does re match text from position j on? */
  method MatchHere(re: string, text: string, j: nat) returns (found: bool)
    requires j <= |text|
    ensures found <==> Begins(Items(re), text, j)
    decreases |re|, 0
  {
    if re == "" {
      BeginsEmpty(text, j);
      return true;
    }
    if |re| > 1 && re[1] == '*' {
      found := MatchStar(re[0], re[2..], text, j);
      return;
    }
    if re[0] == '$' && |re| == 1 {
      BeginsCons(End, [], text, j);
      BeginsEmpty(text, j);
      assert [End] + [] == [End];
      return j == |text|;
    }
    var item := if re[0] == '.' then Any else Lit(re[0]);
    BeginsCons(item, Items(re[1..]), text, j);
    if j < |text| && (re[0] == '.' || re[0] == text[j]) {
      found := MatchHere(re[1..], text, j + 1);
      assert forall m: nat :: Fits(item, text, j, m) <==> m == j + 1;
      return;
    }
    return false;
  }

  /** Does c* followed by re match text from position j on? */
  method MatchStar(c: char, re: string, text: string, j: nat) returns (found: bool)
    requires j <= |text|
    ensures found <==> Begins([Star(c)] + Items(re), text, j)
    decreases |re|, 1
  {
    BeginsCons(Star(c), Items(re), text, j);
    var k := j;
    while true
      invariant j <= k <= |text|
      invariant Fits(Star(c), text, j, k)
      invariant forall m :: j <= m < k ==> !Begins(Items(re), text, m)
      decreases |text| - k
    {
      found := MatchHere(re, text, k);
      if found || k == |text| || !(text[k] == c || c == '.') {
        assert !found ==> forall m: nat :: Fits(Star(c), text, j, m) ==> m <= k;
        return;
      }
      k := k + 1;
    }
  }
}
