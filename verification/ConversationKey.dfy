/** buildDirectConversationKey: one name for the conversation of two accounts, whoever writes to whom. */
module ConversationKeys {

  type Account = string

  /** std::string's order: the first differing character decides, else the length. */
  predicate Less(a: string, b: string) {
    b != "" && (a == "" || a[0] < b[0] || (a[0] == b[0] && Less(a[1..], b[1..])))
  }

  function Key(a: Account, b: Account): string {
    if a == "" || b == "" then ""
    else if Less(a, b) then a + "#" + b
    else b + "#" + a
  }

  function Low(a: Account, b: Account): Account {
    if Less(a, b) then a else b
  }

  function High(a: Account, b: Account): Account {
    if Less(a, b) then b else a
  }

  predicate SamePair(a: Account, b: Account, c: Account, d: Account) {
    (a == c && b == d) || (a == d && b == c)
  }

  lemma {:induction false} LessIsTotal(a: string, b: string)
    ensures a == b || Less(a, b) || Less(b, a)
    ensures !(Less(a, b) && Less(b, a))
    decreases |a|
  {
    if a != "" && b != "" {
      LessIsTotal(a[1..], b[1..]);
      if a[0] == b[0] && a[1..] == b[1..] {
        assert a == [a[0]] + a[1..] == b;
      }
    }
  }

  /** The key does not depend on who is named first. */
  lemma KeyIsSymmetric(a: Account, b: Account)
    ensures Key(a, b) == Key(b, a)
    ensures Key(a, b) == "" <==> a == "" || b == ""
  {
    LessIsTotal(a, b);
  }

  /** The lower account of one pair is the lower of the other, a separator and m, and the other pair's higher account
      is m, a separator and the higher account of the first. */
  ghost predicate Overlap(low: Account, high: Account, low2: Account, high2: Account) {
    exists m: string :: low == low2 + "#" + m && high2 == m + "#" + high
  }

  lemma JoinsOverlap(low: Account, high: Account, low2: Account, high2: Account)
    requires low + "#" + high == low2 + "#" + high2 && |low| > |low2|
    ensures Overlap(low, high, low2, high2)
  {
    var whole := low + "#" + high;
    var m := low[|low2| + 1..];
    assert low == whole[..|low|] && low2 == whole[..|low2|] && whole[|low2|] == '#';
    assert low == low2 + "#" + m;
    assert high2 == whole[|low2| + 1..] == m + "#" + high;
  }

  /** Two pairs share a key exactly when they are the same pair or overlap around a separator inside an account. */
  lemma SameKeyExactly(a: Account, b: Account, c: Account, d: Account)
    requires a != "" && b != "" && c != "" && d != ""
    ensures Key(a, b) == Key(c, d) <==>
            || SamePair(a, b, c, d)
            || Overlap(Low(a, b), High(a, b), Low(c, d), High(c, d))
            || Overlap(Low(c, d), High(c, d), Low(a, b), High(a, b))
  {
    LessIsTotal(a, b);
    LessIsTotal(c, d);
    var low, high, low2, high2 := Low(a, b), High(a, b), Low(c, d), High(c, d);
    assert Key(a, b) == low + "#" + high && Key(c, d) == low2 + "#" + high2;
    if Key(a, b) == Key(c, d) {
      if |low| > |low2| {
        JoinsOverlap(low, high, low2, high2);
      } else if |low| < |low2| {
        JoinsOverlap(low2, high2, low, high);
      } else {
        EqualHalves(low, high, low2, high2);
      }
    } else if Overlap(low, high, low2, high2) {
      OverlapJoins(low, high, low2, high2);
    } else if Overlap(low2, high2, low, high) {
      OverlapJoins(low2, high2, low, high);
    }
  }

  lemma EqualHalves(low: Account, high: Account, low2: Account, high2: Account)
    requires low + "#" + high == low2 + "#" + high2 && |low| == |low2|
    ensures low == low2 && high == high2
  {
    var whole := low + "#" + high;
    assert low == whole[..|low|] == low2;
    assert high == whole[|low| + 1..] == high2;
  }

  lemma OverlapJoins(low: Account, high: Account, low2: Account, high2: Account)
    requires Overlap(low, high, low2, high2)
    ensures low + "#" + high == low2 + "#" + high2
  {
  }

  /** For accounts without the separator the key names the pair. */
  lemma KeyNamesThePair(a: Account, b: Account, c: Account, d: Account)
    requires a != "" && b != "" && c != "" && d != ""
    requires '#' !in a && '#' !in b && '#' !in c && '#' !in d
    ensures Key(a, b) == Key(c, d) <==> SamePair(a, b, c, d)
  {
    SameKeyExactly(a, b, c, d);
    NoOverlap(Low(a, b), High(a, b), Low(c, d), High(c, d));
    NoOverlap(Low(c, d), High(c, d), Low(a, b), High(a, b));
  }

  lemma NoOverlap(low: Account, high: Account, low2: Account, high2: Account)
    requires '#' !in low
    ensures !Overlap(low, high, low2, high2)
  {
  }

  lemma SeparatorConfusesPairs()
    ensures Key("a", "b#c") == Key("a#b", "c") && !SamePair("a", "b#c", "a#b", "c")
  {
  }
}
