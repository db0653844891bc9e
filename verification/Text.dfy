/** str.strip() and str.lower() on ASCII text, and sorted() on a set of strings. */
module Text {
  import opened Decimals

  /** The ASCII characters str.isspace holds of. */
  predicate IsSpace(c: char) {
    c == ' ' || '\t' <= c <= '\r' || '\U{1C}' <= c <= '\U{1F}'
  }

  function StripLeft(s: string): string {
    if s != [] && IsSpace(s[0]) then StripLeft(s[1..]) else s
  }

  function StripRight(s: string): string {
    if s != [] && IsSpace(s[|s| - 1]) then StripRight(s[..|s| - 1]) else s
  }

  function Strip(s: string): string {
    StripRight(StripLeft(s))
  }

  function Lower(s: string): string {
    seq(|s|, i requires 0 <= i < |s| => if 'A' <= s[i] <= 'Z' then (s[i] as int + 32) as char else s[i])
  }

  function Norm(s: string): string {
    Lower(Strip(s))
  }

  ghost predicate Blank(s: string) {
    forall i | 0 <= i < |s| :: s[i] in " \t\n\U{0B}\U{0C}\r\U{1C}\U{1D}\U{1E}\U{1F}"
  }

  lemma BlankIsSpace(c: char)
    ensures IsSpace(c) <==> c in " \t\n\U{0B}\U{0C}\r\U{1C}\U{1D}\U{1E}\U{1F}"
  {
    var blanks := " \t\n\U{0B}\U{0C}\r\U{1C}\U{1D}\U{1E}\U{1F}";
    assert |blanks| == 10;
    assert blanks[0] == ' ' && blanks[1] == '\t' && blanks[2] == '\n' && blanks[3] == '\U{0B}' && blanks[4] == '\U{0C}';
    assert blanks[5] == '\r' && blanks[6] == '\U{1C}' && blanks[7] == '\U{1D}' && blanks[8] == '\U{1E}';
    assert blanks[9] == '\U{1F}';
    if IsSpace(c) {
      assert c == ' ' || c as int in {9, 10, 11, 12, 13, 28, 29, 30, 31};
      assert c in {blanks[0], blanks[1], blanks[2], blanks[3], blanks[4], blanks[5], blanks[6], blanks[7], blanks[8],
          blanks[9]};
    }
  }

  lemma {:induction false} StripLeftTrims(before: string, s: string)
    requires Blank(before) && (s != [] ==> !IsSpace(s[0]))
    ensures StripLeft(before + s) == s
  {
    if before == [] {
      assert before + s == s;
    } else {
      BlankIsSpace(before[0]);
      StripLeftTrims(before[1..], s);
      assert (before + s)[1..] == before[1..] + s;
    }
  }

  lemma {:induction false} StripRightTrims(s: string, after: string)
    requires Blank(after) && (s != [] ==> !IsSpace(s[|s| - 1]))
    ensures StripRight(s + after) == s
  {
    if after == [] {
      assert s + after == s;
    } else {
      var last := |after| - 1;
      BlankIsSpace(after[last]);
      StripRightTrims(s, after[..last]);
      assert (s + after)[..|s + after| - 1] == s + after[..last];
    }
  }

  /** Stripping takes off exactly the blanks around a text. */
  lemma StripTrims(before: string, s: string, after: string)
    requires Blank(before) && Blank(after) && (s != [] ==> !Blank([s[0]]) && !Blank([s[|s| - 1]]))
    ensures Strip(before + s + after) == s
  {
    if s == [] {
      assert before + s + after == (before + after) + [];
      StripLeftTrims(before + after, []);
      assert StripLeft(before + s + after) == [];
    } else {
      BlankIsSpace(s[0]);
      BlankIsSpace(s[|s| - 1]);
      assert [s[0]][0] == s[0] && [s[|s| - 1]][0] == s[|s| - 1];
      assert before + s + after == before + (s + after);
      StripLeftTrims(before, s + after);
      StripRightTrims(s, after);
    }
  }

  /** Names are compared without the blanks around them and without case. */
  lemma NormTrimsAndLowers(before: string, s: string, after: string)
    requires Blank(before) && Blank(after) && (s != [] ==> !Blank([s[0]]) && !Blank([s[|s| - 1]]))
    ensures Norm(before + s + after) == Lower(s)
  {
    StripTrims(before, s, after);
  }

  /** Lower-casing turns the capitals into small letters, one by one, and leaves the rest. */
  lemma LowerIsLetterByLetter(s: string, t: string, c: char)
    ensures Lower("ABCDEFGHIJKLMNOPQRSTUVWXYZ") == "abcdefghijklmnopqrstuvwxyz"
    ensures c < 'A' || 'Z' < c ==> Lower([c]) == [c]
    ensures Lower(s + t) == Lower(s) + Lower(t)
  {
  }

  function Elements(xs: seq<string>): set<string> {
    set x | x in xs
  }

  ghost predicate Increasing(xs: seq<string>) {
    forall i, j | 0 <= i < j < |xs| :: Less(xs[i], xs[j])
  }

  function Insert(xs: seq<string>, x: string): seq<string> {
    if xs == [] || !Less(xs[0], x) then [x] + xs else [xs[0]] + Insert(xs[1..], x)
  }

  lemma {:induction false} InsertIsSorted(xs: seq<string>, x: string)
    requires Increasing(xs) && x !in xs
    ensures Increasing(Insert(xs, x)) && Elements(Insert(xs, x)) == Elements(xs) + {x}
  {
    if xs == [] || !Less(xs[0], x) {
      if xs != [] {
        LessTotal(xs[0], x);
        forall i | 0 < i < |xs| ensures Less(x, xs[i]) { LessTrans(x, xs[0], xs[i]); }
      }
    } else {
      InsertIsSorted(xs[1..], x);
      assert Elements(xs) == Elements(xs[1..]) + {xs[0]};
      var rest := Insert(xs[1..], x);
      forall i | 0 <= i < |rest| ensures Less(xs[0], rest[i]) {
        assert rest[i] in Elements(rest);
        if rest[i] != x { assert rest[i] in xs[1..]; }
      }
    }
  }

  method Sorted(s: set<string>) returns (xs: seq<string>)
    ensures Increasing(xs) && Elements(xs) == s
  {
    xs := [];
    var left := s;
    while left != {}
      invariant left <= s && Increasing(xs) && Elements(xs) == s - left
    {
      var x :| x in left;
      left := left - {x};
      assert x !in Elements(xs);
      InsertIsSorted(xs, x);
      xs := Insert(xs, x);
    }
  }

  /** A set of strings has one sorted listing. */
  lemma {:induction false} SortedIsUnique(xs: seq<string>, ys: seq<string>)
    requires Increasing(xs) && Increasing(ys) && Elements(xs) == Elements(ys)
    ensures xs == ys
  {
    assert forall i | 0 <= i < |ys| :: ys[i] in Elements(xs);
    assert forall i | 0 <= i < |xs| :: xs[i] in Elements(ys);
    if xs != [] {
      SameFirst(xs, ys);
      forall x ensures x in Elements(xs[1..]) <==> x in Elements(ys[1..]) {
        LessIsStrict(xs[0]);
        assert x in xs[1..] <==> x in xs && x != xs[0];
        assert x in ys[1..] <==> x in ys && x != ys[0];
        assert x in Elements(xs) <==> x in Elements(ys);
      }
      SortedIsUnique(xs[1..], ys[1..]);
    }
  }

  lemma SameFirst(xs: seq<string>, ys: seq<string>)
    requires Increasing(xs) && Increasing(ys) && xs != [] && ys != [] && xs[0] in ys && ys[0] in xs
    ensures xs[0] == ys[0]
  {
    if xs[0] != ys[0] {
      LessTrans(xs[0], ys[0], xs[0]);
      LessIsStrict(xs[0]);
    }
  }
}
