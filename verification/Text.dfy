/** Splitting text at a separator and joining it again, and trimming it. */
module Text {

  /** A character before some segments: a separator starts a new one. */
  function Before(sep: char, c: char, segments: seq<string>): (r: seq<string>)
    requires segments != []
    ensures r != []
  {
    if c == sep then [[]] + segments else [[c] + segments[0]] + segments[1..]
  }

  /** The segments between separators: always one more than there are separators. */
  function Split(sep: char, s: string): (r: seq<string>)
    ensures r != []
  {
    if s == [] then [[]] else Before(sep, s[0], Split(sep, s[1..]))
  }

  function Join(sep: char, segments: seq<string>): string {
    if segments == [] then []
    else if |segments| == 1 then segments[0]
    else segments[0] + ([sep] + Join(sep, segments[1..]))
  }

  lemma JoinBefore(sep: char, c: char, segments: seq<string>)
    requires segments != []
    ensures Join(sep, Before(sep, c, segments)) == [c] + Join(sep, segments)
  {
    var r := Before(sep, c, segments);
    if c == sep {
      assert r[1..] == segments;
    } else {
      assert r[1..] == segments[1..];
    }
  }

  lemma {:induction false} JoinOfSplit(sep: char, s: string)
    ensures Join(sep, Split(sep, s)) == s
  {
    if s != [] {
      JoinOfSplit(sep, s[1..]);
      JoinBefore(sep, s[0], Split(sep, s[1..]));
    }
  }

  lemma {:induction false} JoinConcat(sep: char, a: seq<string>, b: seq<string>)
    requires a != [] && b != []
    ensures Join(sep, a + b) == Join(sep, a) + ([sep] + Join(sep, b))
  {
    if |a| == 1 {
      assert (a + b)[1..] == b;
    } else {
      JoinConcat(sep, a[1..], b);
      assert (a + b)[1..] == a[1..] + b;
    }
  }

  lemma BeforeConcat(sep: char, c: char, x: seq<string>, y: seq<string>)
    requires x != []
    ensures Before(sep, c, x + y) == Before(sep, c, x) + y
  {
    assert (x + y)[1..] == x[1..] + y;
  }

  lemma {:induction false} SplitConcat(sep: char, a: string, b: string)
    ensures Split(sep, a + ([sep] + b)) == Split(sep, a) + Split(sep, b)
  {
    var s := a + ([sep] + b);
    if a == [] {
      assert s == [sep] + b && s[1..] == b;
      assert Before(sep, sep, Split(sep, b)) == [[]] + Split(sep, b);
    } else {
      assert s[0] == a[0] && s[1..] == a[1..] + ([sep] + b);
      SplitConcat(sep, a[1..], b);
      BeforeConcat(sep, a[0], Split(sep, a[1..]), Split(sep, b));
    }
  }

  predicate Without(sep: char, s: string) {
    forall i :: 0 <= i < |s| ==> s[i] != sep
  }

  lemma {:induction false} SplitOfOne(sep: char, s: string)
    requires Without(sep, s)
    ensures Split(sep, s) == [s]
  {
    if s != [] {
      SplitOfOne(sep, s[1..]);
      assert [s[0]] + s[1..] == s;
    }
  }

  /** Splitting undoes joining when no segment contains the separator. */
  lemma {:induction false} SplitOfJoin(sep: char, segments: seq<string>)
    requires segments != [] && forall i :: 0 <= i < |segments| ==> Without(sep, segments[i])
    ensures Split(sep, Join(sep, segments)) == segments
  {
    SplitOfOne(sep, segments[0]);
    if |segments| > 1 {
      SplitOfJoin(sep, segments[1..]);
      SplitConcat(sep, segments[0], Join(sep, segments[1..]));
      assert [segments[0]] + segments[1..] == segments;
    } else {
      assert segments == [segments[0]];
    }
  }

  // ---------------------------------------------------------------- trimming

  function TrimStart(drop: char -> bool, s: string): string {
    if s != [] && drop(s[0]) then TrimStart(drop, s[1..]) else s
  }

  function TrimEnd(drop: char -> bool, s: string): string {
    if s != [] && drop(s[|s| - 1]) then TrimEnd(drop, s[..|s| - 1]) else s
  }

  function Trim(drop: char -> bool, s: string): string { TrimEnd(drop, TrimStart(drop, s)) }

  lemma {:induction false} TrimEndOf(drop: char -> bool, s: string)
    ensures var r := TrimEnd(drop, s);
      && r <= s && (r != [] ==> !drop(r[|r| - 1]))
      && (r == [] <==> forall i :: 0 <= i < |s| ==> drop(s[i]))
  {
    if s != [] && drop(s[|s| - 1]) {
      TrimEndOf(drop, s[..|s| - 1]);
    }
  }

  lemma {:induction false} TrimEndDrops(drop: char -> bool, s: string)
    ensures |TrimEnd(drop, s)| <= |s| && forall i :: |TrimEnd(drop, s)| <= i < |s| ==> drop(s[i])
  {
    if s != [] && drop(s[|s| - 1]) {
      TrimEndDrops(drop, s[..|s| - 1]);
    }
  }

  lemma {:induction false} TrimStartShortens(drop: char -> bool, s: string)
    ensures |TrimStart(drop, s)| <= |s|
  {
    if s != [] && drop(s[0]) {
      TrimStartShortens(drop, s[1..]);
    }
  }

  lemma NothingToTrim(drop: char -> bool, s: string)
    requires s != [] && !drop(s[0]) && !drop(s[|s| - 1])
    ensures Trim(drop, s) == s
  {}

  ghost predicate AllDropped(drop: char -> bool, s: string) {
    forall i :: 0 <= i < |s| ==> drop(s[i])
  }

  lemma {:induction false} TrimStartOf(drop: char -> bool, a: string, s: string)
    requires AllDropped(drop, a) && (s == [] || !drop(s[0]))
    ensures TrimStart(drop, a + s) == s
  {
    if a == [] {
      assert a + s == s;
    } else {
      assert (a + s)[1..] == a[1..] + s;
      TrimStartOf(drop, a[1..], s);
    }
  }

  lemma {:induction false} TrimEndBefore(drop: char -> bool, s: string, b: string)
    requires AllDropped(drop, b) && (s == [] || !drop(s[|s| - 1]))
    ensures TrimEnd(drop, s + b) == s
  {
    if b == [] {
      assert s + b == s;
    } else {
      assert (s + b)[..|s + b| - 1] == s + b[..|b| - 1];
      TrimEndBefore(drop, s, b[..|b| - 1]);
    }
  }

  /** Trimming removes what is to be dropped from both ends and nothing else; all of a text that is nothing else. */
  lemma TrimMeans(drop: char -> bool, a: string, s: string, b: string)
    requires AllDropped(drop, a) && AllDropped(drop, b)
    requires s == [] || (!drop(s[0]) && !drop(s[|s| - 1]))
    ensures Trim(drop, a + s + b) == s
  {
    if s == [] {
      assert a + s + b == (a + b) + [];
      TrimStartOf(drop, a + b, []);
    } else {
      assert a + s + b == a + (s + b);
      TrimStartOf(drop, a, s + b);
      TrimEndBefore(drop, s, b);
    }
  }
}
